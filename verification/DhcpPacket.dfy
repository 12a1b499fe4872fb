// The DHCP packet codec (dhcp/v4.py).

module DhcpPackets {
  import opened Wrappers
  import opened Bytes

  const OPT_PAD: byte := 0
  const OPT_END: byte := 255
  const MAGIC_COOKIE: seq<byte> := [0x63, 0x82, 0x53, 0x63]

  type Options = map<byte, seq<byte>>

  datatype Packet = Packet(
    op: byte, htype: byte, hlen: byte, hops: byte, xid: nat, secs: nat, flags: nat,
    ciaddr: seq<byte>, yiaddr: seq<byte>, siaddr: seq<byte>, giaddr: seq<byte>,
    chaddr: seq<byte>, options: Options)

  /** The fields fit the header. */
  predicate Fits(p: Packet) {
    && p.xid < 0x1_0000_0000 && p.secs < 0x1_0000 && p.flags < 0x1_0000
    && |p.ciaddr| == |p.yiaddr| == |p.siaddr| == |p.giaddr| == 4
  }

  // ---- Writing ----

  function Zeros(n: nat): (z: seq<byte>)
    ensures |z| == n
  {
    seq(n, _ => 0)
  }

  /** One value as consecutive options of at most 255 octets (RFC 3396). */
  function Chunks(code: byte, val: seq<byte>): (s: seq<byte>)
    ensures |s| >= 2
  {
    if |val| <= 255 then [code, |val|] + val
    else [code, 255] + val[..255] + Chunks(code, val[255..])
  }

  function AllOptions(items: seq<byte>, options: Options): seq<byte>
    requires forall c :: c in items ==> c in options
  {
    if items == [] then [] else Chunks(items[0], options[items[0]]) + AllOptions(items[1..], options)
  }

  function Padded(chaddr: seq<byte>): (c: seq<byte>)
    ensures |c| == 16
  {
    (chaddr + Zeros(16))[..16]
  }

  function Header(p: Packet): (s: seq<byte>)
    requires Fits(p)
    ensures |s| == 240
  {
    [p.op, p.htype, p.hlen, p.hops] + (U32(p.xid) + (U16(p.secs) + (U16(p.flags) +
      (p.ciaddr + (p.yiaddr + (p.siaddr + (p.giaddr + (Padded(p.chaddr) + (Zeros(192) + MAGIC_COOKIE)))))))))
  }

  /** The options, the end marker, and padding to the BOOTP minimum of 300 octets. */
  function Finish(out: seq<byte>): (s: seq<byte>)
    ensures |s| >= 300 && out + [OPT_END] <= s
  {
    var closed := out + [OPT_END];
    if |closed| < 300 then closed + Zeros(300 - |closed|) else closed
  }

  ghost predicate Lists(items: seq<byte>, options: Options) {
    && (forall c :: c in items <==> c in options)
    && (forall i, j :: 0 <= i < j < |items| ==> items[i] != items[j])
  }

  /** `to_wire`; `items` is the order in which the dictionary yields its codes. */
  method ToWire(p: Packet, items: seq<byte>) returns (wire: seq<byte>)
    requires Fits(p) && Lists(items, p.options)
    ensures wire == Finish(Header(p) + AllOptions(items, p.options))
  {
    hide AllOptions, Chunks, Header;
    var out := Header(p);
    ghost var start := out;
    NothingWritten(items, p.options);
    for i := 0 to |items|
      invariant out == start + AllOptions(items[..i], p.options)
    {
      var chunks := WriteValue(items[i], p.options[items[i]]);
      OneMoreOption(items, p.options, i);
      assert (start + AllOptions(items[..i], p.options)) + chunks == start + (AllOptions(items[..i], p.options) + chunks);
      out := out + chunks;
    }
    assert items[..|items|] == items;
    return Finish(out);
  }

  /** The loop over `range(0, len(val), 255)`. */
  method WriteValue(code: byte, val: seq<byte>) returns (out: seq<byte>)
    ensures out == Chunks(code, val)
  {
    hide Chunks;
    out := [];
    var i := 0;
    var first := true;
    assert val[0..] == val;
    while i < |val| || first
      invariant first ==> i == 0
      invariant if first || i < |val| then i <= |val| && Chunks(code, val) == out + Chunks(code, val[i..])
                else Chunks(code, val) == out
      decreases first, |val| - i
    {
      var end := if i + 255 <= |val| then i + 255 else |val|;
      var chunk := val[i..end];
      OneChunk(code, val, i, out);
      out := out + ([code, |chunk|] + chunk);
      first := false;
      i := i + 255;
    }
  }

  /** The next chunk of a value, and what is left: nothing at exactly 255. */
  lemma {:induction false} OneChunk(code: byte, val: seq<byte>, i: nat, out: seq<byte>)
    requires i <= |val|
    ensures var end := if i + 255 <= |val| then i + 255 else |val|;
            var chunk := [code, end - i] + val[i..end];
            out + Chunks(code, val[i..]) ==
            if i + 255 < |val| then (out + chunk) + Chunks(code, val[i + 255..]) else out + chunk
  {
    var end := if i + 255 <= |val| then i + 255 else |val|;
    var rest := val[i..];
    if i + 255 < |val| {
      assert rest[..255] == val[i..end] && rest[255..] == val[i + 255..];
      assert Chunks(code, rest) == ([code, 255] + rest[..255]) + Chunks(code, rest[255..]);
    } else {
      assert rest == val[i..end];
    }
  }

  lemma {:induction false} NothingWritten(items: seq<byte>, options: Options)
    requires forall c :: c in items ==> c in options
    ensures AllOptions(items[..0], options) == []
  {
  }

  lemma {:induction false} OneMoreOption(items: seq<byte>, options: Options, i: nat)
    requires i < |items| && forall c :: c in items ==> c in options
    ensures AllOptions(items[..i + 1], options) == AllOptions(items[..i], options) + Chunks(items[i], options[items[i]])
    decreases i
  {
    var rest := items[1..];
    if i > 0 {
      OneMoreOption(rest, options, i - 1);
      assert items[..i + 1][1..] == rest[..i] && items[..i][1..] == rest[..i - 1];
    } else {
      assert items[..1] == [items[0]] && items[..1][1..] == [];
    }
  }

  // ---- Reading ----

  function ValueOf(opts: Options, code: byte): seq<byte> {
    if code in opts then opts[code] else []
  }

  /** The options from offset `i` on, added to `opts`; None for a packet that does not add up. */
  function ParseFrom(data: seq<byte>, i: nat, opts: Options): Option<Options>
    decreases |data| - i
  {
    if i >= |data| || data[i] == OPT_END then Some(opts)
    else if data[i] == OPT_PAD then ParseFrom(data, i + 1, opts)
    else if i + 1 >= |data| || i + 2 + data[i + 1] as nat > |data| then None
    else
      var code, length := data[i], data[i + 1] as nat;
      ParseFrom(data, i + 2 + length, opts[code := ValueOf(opts, code) + data[i + 2..i + 2 + length]])
  }

  /** `_parse_options`. */
  method ParseOptions(data: seq<byte>) returns (r: Option<Options>)
    ensures r == ParseFrom(data, 0, map[])
  {
    hide ParseFrom, ValueOf;
    var opts: Options := map[];
    var i := 0;
    while i < |data|
      invariant ParseFrom(data, 0, map[]) == ParseFrom(data, i, opts)
      decreases |data| - i
    {
      NoOption(data, i, opts);
      var code := data[i];
      if code == OPT_END {
        break;
      }
      if code == OPT_PAD {
        i := i + 1;
        continue;
      }
      if i + 1 >= |data| {
        return None;
      }
      var length := data[i + 1] as nat;
      if i + 2 + length > |data| {
        return None;
      }
      OneOption(data, i, opts);
      opts := opts[code := ValueOf(opts, code) + data[i + 2..i + 2 + length]];
      i := i + 2 + length;
    }
    NoOption(data, i, opts);
    return Some(opts);
  }

  /** The end, a pad octet, and an option that goes beyond the packet. */
  lemma {:induction false} NoOption(data: seq<byte>, i: nat, opts: Options)
    ensures i >= |data| || data[i] == OPT_END ==> ParseFrom(data, i, opts) == Some(opts)
    ensures i < |data| && data[i] == OPT_PAD ==> ParseFrom(data, i, opts) == ParseFrom(data, i + 1, opts)
    ensures i < |data| && data[i] != OPT_PAD && data[i] != OPT_END && (i + 1 >= |data| || i + 2 + data[i + 1] as nat > |data|) ==>
              ParseFrom(data, i, opts) == None
  {
  }

  function ParseHeader(data: seq<byte>, options: Options): Packet
    requires |data| >= 240
  {
    Packet(data[0], data[1], data[2], data[3], FromU32(data, 4), FromU16(data, 8), FromU16(data, 10),
           data[12..16], data[16..20], data[20..24], data[24..28], data[28..44], options)
  }

  function Parsed(data: seq<byte>): Option<Packet> {
    if |data| < 240 || data[236..240] != MAGIC_COOKIE then None
    else
      match ParseFrom(data[240..], 0, map[])
      case None => None
      case Some(options) => Some(ParseHeader(data, options))
  }

  /** `parse`. */
  method Parse(data: seq<byte>) returns (r: Option<Packet>)
    ensures r == Parsed(data)
  {
    if |data| < 240 || data[236..240] != MAGIC_COOKIE {
      return None;
    }
    var options := ParseOptions(data[240..]);
    if options.None? {
      return None;
    }
    return Some(ParseHeader(data, options.value));
  }

  // ---- Round trip ----

  /** A code that is neither padding nor the end marker. */
  predicate Codable(options: Options) {
    OPT_PAD !in options && OPT_END !in options
  }

  /** The parser never yields the codes 0 and 255. */
  lemma {:induction false} ParsedIsCodable(data: seq<byte>, i: nat, opts: Options)
    requires Codable(opts)
    ensures ParseFrom(data, i, opts).Some? ==> Codable(ParseFrom(data, i, opts).value)
    decreases |data| - i
  {
    if i < |data| && data[i] != OPT_END {
      if data[i] == OPT_PAD {
        ParsedIsCodable(data, i + 1, opts);
      } else if i + 1 < |data| && i + 2 + data[i + 1] as nat <= |data| {
        var length := data[i + 1] as nat;
        ParsedIsCodable(data, i + 2 + length, opts[data[i] := ValueOf(opts, data[i]) + data[i + 2..i + 2 + length]]);
      }
    }
  }

  /** Reading the chunks of a value appends that value, whole, to what the code has. */
  lemma {:induction false} ChunksRoundTrip(data: seq<byte>, i: nat, code: byte, val: seq<byte>, opts: Options)
    requires At(data, i, Chunks(code, val)) && code != OPT_PAD && code != OPT_END
    ensures ParseFrom(data, i, opts) ==
            ParseFrom(data, i + |Chunks(code, val)|, opts[code := ValueOf(opts, code) + val])
    decreases |val|
  {
    hide At, ParseFrom, ValueOf;
    var n := if |val| <= 255 then |val| else 255;
    var head, rest := val[..n], if |val| <= 255 then [] else Chunks(code, val[255..]);
    assert Chunks(code, val) == [code] + ([n] + (head + rest));
    AtSplit(data, i, [code], [n] + (head + rest));
    AtOne(data, i, code);
    AtSplit(data, i + 1, [n], head + rest);
    AtOne(data, i + 1, n);
    AtSplit(data, i + 2, head, rest);
    AtIs(data, i + 2, head);
    OneOption(data, i, opts);
    if |val| <= 255 {
      assert head == val;
    } else {
      ChunksRoundTrip(data, i + 2 + n, code, val[255..], opts[code := ValueOf(opts, code) + head]);
      AppendTwice(opts, code, head, val[255..]);
      assert head + val[255..] == val;
    }
  }

  lemma {:induction false} OneOption(data: seq<byte>, i: nat, opts: Options)
    requires i + 1 < |data| && data[i] != OPT_PAD && data[i] != OPT_END && i + 2 + data[i + 1] as nat <= |data|
    ensures var n := data[i + 1] as nat;
            ParseFrom(data, i, opts) ==
            ParseFrom(data, i + 2 + n, opts[data[i] := ValueOf(opts, data[i]) + data[i + 2..i + 2 + n]])
  {
  }

  lemma {:induction false} AppendTwice(opts: Options, code: byte, a: seq<byte>, b: seq<byte>)
    ensures var opts' := opts[code := ValueOf(opts, code) + a];
            opts'[code := ValueOf(opts', code) + b] == opts[code := ValueOf(opts, code) + (a + b)]
  {
    assert (ValueOf(opts, code) + a) + b == ValueOf(opts, code) + (a + b);
  }

  /** `opts` with the items of `options` added. */
  function With(opts: Options, items: seq<byte>, options: Options): Options
    requires forall c :: c in items ==> c in options
    decreases |items|
  {
    if items == [] then opts
    else With(opts[items[0] := ValueOf(opts, items[0]) + options[items[0]]], items[1..], options)
  }

  lemma {:induction false} OptionsRoundTrip(data: seq<byte>, i: nat, items: seq<byte>, options: Options, opts: Options)
    requires forall c :: c in items ==> c in options && c != OPT_PAD && c != OPT_END
    requires At(data, i, AllOptions(items, options) + [OPT_END])
    ensures ParseFrom(data, i, opts) == Some(With(opts, items, options))
    decreases |items|
  {
    hide At, Chunks;
    if items == [] {
      assert [] + [OPT_END] == [OPT_END];
      AtOne(data, i, OPT_END);
    } else {
      var c, rest := items[0], items[1..];
      var first := Chunks(c, options[c]);
      assert AllOptions(items, options) + [OPT_END] == first + (AllOptions(rest, options) + [OPT_END]);
      AtSplit(data, i, first, AllOptions(rest, options) + [OPT_END]);
      ChunksRoundTrip(data, i, c, options[c], opts);
      OptionsRoundTrip(data, i + |first|, rest, options, opts[c := ValueOf(opts, c) + options[c]]);
    }
  }

  /** Adding every item once to nothing gives the options, in any order. */
  lemma {:induction false} WithAll(opts: Options, items: seq<byte>, options: Options)
    requires forall i, j :: 0 <= i < j < |items| ==> items[i] != items[j]
    requires forall c :: c in items ==> c in options && c !in opts
    ensures With(opts, items, options).Keys == opts.Keys + set c | c in items
    ensures forall c :: c in With(opts, items, options) ==>
              With(opts, items, options)[c] == if c in items then options[c] else opts[c]
    decreases |items|
  {
    if items != [] {
      var c, rest := items[0], items[1..];
      var opts' := opts[c := ValueOf(opts, c) + options[c]];
      assert ValueOf(opts, c) + options[c] == options[c];
      assert items == [c] + rest && c !in rest;
      WithAll(opts', rest, options);
    }
  }

  /** The packet round trip: what `to_wire` writes, `parse` reads back (with the
    * hardware address padded to its 16 octets), exactly when no option uses the
    * codes 0 or 255. Values may be empty or of any length. */
  lemma {:induction false} PacketRoundTrip(p: Packet, items: seq<byte>)
    requires Fits(p) && Lists(items, p.options)
    ensures Parsed(Finish(Header(p) + AllOptions(items, p.options))) == Some(p.(chaddr := Padded(p.chaddr)))
            <==> Codable(p.options)
  {
    hide Header, AllOptions, ParseFrom, Padded;
    var head, body := Header(p), AllOptions(items, p.options);
    var wire := Finish(head + body);
    HeaderRoundTrip(p, wire);
    var data := wire[240..];
    if Codable(p.options) {
      assert (head + body) + [OPT_END] == head + (body + [OPT_END]);
      TailAt(wire, head, body + [OPT_END]);
      OptionsRoundTrip(data, 0, items, p.options, map[]);
      WithAll(map[], items, p.options);
      assert With(map[], items, p.options) == p.options;
    }
    ParsedIsCodable(data, 0, map[]);
  }

  /** Writing a packet and reading it back. */
  method WriteAndRead(p: Packet, items: seq<byte>) returns (r: Option<Packet>)
    requires Fits(p) && Lists(items, p.options)
    ensures r == Some(p.(chaddr := Padded(p.chaddr))) <==> Codable(p.options)
  {
    hide *;
    PacketRoundTrip(p, items);
    var wire := ToWire(p, items);
    r := Parse(wire);
  }

  lemma {:induction false} TailAt(wire: seq<byte>, head: seq<byte>, tail: seq<byte>)
    requires head + tail <= wire && |head| == 240
    ensures At(wire[240..], 0, tail)
  {
    assert wire[..|head + tail|] == head + tail;
    assert wire[240..][0..|tail|] == (head + tail)[240..];
  }

  lemma {:induction false} HeaderRoundTrip(p: Packet, wire: seq<byte>)
    requires Fits(p) && Header(p) <= wire
    ensures wire[236..240] == MAGIC_COOKIE
    ensures forall options :: ParseHeader(wire, options) == p.(chaddr := Padded(p.chaddr), options := options)
  {
    hide At, Padded, U16, U32, FromU16, FromU32;
    var t11 := Zeros(192) + MAGIC_COOKIE;
    var t10 := Padded(p.chaddr) + t11;
    var t9 := p.giaddr + t10;
    var t8 := p.siaddr + t9;
    var t7 := p.yiaddr + t8;
    var t6 := p.ciaddr + t7;
    var t5 := U16(p.flags) + t6;
    var t4 := U16(p.secs) + t5;
    var t3 := U32(p.xid) + t4;
    PrefixAt(wire, Header(p));
    AtSplit(wire, 0, [p.op, p.htype, p.hlen, p.hops], t3);
    AtIs(wire, 0, [p.op, p.htype, p.hlen, p.hops]);
    FourOctets(wire, [p.op, p.htype, p.hlen, p.hops]);
    AtSplit(wire, 4, U32(p.xid), t4);
    U32At(wire, 4, p.xid);
    AtSplit(wire, 8, U16(p.secs), t5);
    U16At(wire, 8, p.secs);
    AtSplit(wire, 10, U16(p.flags), t6);
    U16At(wire, 10, p.flags);
    AtSplit(wire, 12, p.ciaddr, t7);
    AtIs(wire, 12, p.ciaddr);
    AtSplit(wire, 16, p.yiaddr, t8);
    AtIs(wire, 16, p.yiaddr);
    AtSplit(wire, 20, p.siaddr, t9);
    AtIs(wire, 20, p.siaddr);
    AtSplit(wire, 24, p.giaddr, t10);
    AtIs(wire, 24, p.giaddr);
    AtSplit(wire, 28, Padded(p.chaddr), t11);
    AtIs(wire, 28, Padded(p.chaddr));
    AtSplit(wire, 44, Zeros(192), MAGIC_COOKIE);
    AtIs(wire, 236, MAGIC_COOKIE);
  }

  lemma {:induction false} FourOctets(wire: seq<byte>, s: seq<byte>)
    requires |s| == 4 <= |wire| && wire[0..4] == s
    ensures wire[0] == s[0] && wire[1] == s[1] && wire[2] == s[2] && wire[3] == s[3]
  {
  }

  lemma {:induction false} PrefixAt(wire: seq<byte>, s: seq<byte>)
    requires s <= wire
    ensures At(wire, 0, s)
  {
    assert wire[0..|s|] == wire[..|s|];
  }

  // ---- The octets on the wire (RFC 2131 section 2) ----

  lemma {:induction false} HeaderTail(p: Packet)
    requires Fits(p)
    ensures forall i :: 44 <= i < 236 ==> Header(p)[i] == 0
  {
    hide U16, U32, Padded;
  }

  /** Where the fields of a packet are, whatever options follow. */
  lemma {:induction false} HeaderOctets(p: Packet, w: seq<byte>)
    requires Fits(p) && Header(p) <= w
    ensures w[0] == p.op && w[1] == p.htype && w[2] == p.hlen && w[3] == p.hops
    ensures 0x1_0000 * (w[4] as nat * 256 + w[5]) + (w[6] as nat * 256 + w[7]) == p.xid
    ensures w[8] as nat * 256 + w[9] == p.secs && w[10] as nat * 256 + w[11] == p.flags
    ensures w[12..16] == p.ciaddr && w[16..20] == p.yiaddr && w[20..24] == p.siaddr && w[24..28] == p.giaddr
    ensures forall i :: 0 <= i < 16 ==> w[28 + i] == if i < |p.chaddr| then p.chaddr[i] else 0
    ensures (forall i :: 44 <= i < 236 ==> w[i] == 0) && w[236..240] == [99, 130, 83, 99]
  {
    HeaderRoundTrip(p, w);
    HeaderTail(p);
    hide Header;
    assert ParseHeader(w, map[]) == p.(chaddr := Padded(p.chaddr), options := map[]);
    assert forall i :: 0 <= i < 16 ==> w[28 + i] == w[28..44][i];
    assert forall i :: 0 <= i < 240 ==> w[i] == Header(p)[i];
  }

  /** A packet with one option of up to 255 octets: its code, its length and its
    * value come right after the header, then the end marker, then zeros. */
  lemma {:induction false} OneOptionOctets(p: Packet, code: byte, value: seq<byte>)
    requires Fits(p) && |value| <= 255 && p.options == map[code := value]
    ensures var w := Finish(Header(p) + AllOptions([code], p.options));
            && [code, |value|] + value + [255] <= w[240..]
            && (forall i :: 243 + |value| <= i < |w| ==> w[i] == 0)
            && |w| == if |value| < 57 then 300 else 243 + |value|
  {
    assert [code][1..] == [];
    assert AllOptions([code], p.options) == [code, |value|] + value;
    hide Header;
    var out := Header(p) + ([code, |value|] + value);
    assert (out + [OPT_END])[240..] == [code, |value|] + value + [255];
  }
}
