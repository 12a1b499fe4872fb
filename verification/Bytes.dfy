// Octets, and the integers stored in them.

module Bytes {
  type byte = b: int | 0 <= b < 256

  /** `n` octets, least significant first. */
  function LittleEndian(v: nat, n: nat): (s: seq<byte>)
    ensures |s| == n
  {
    if n == 0 then [] else [v % 256] + LittleEndian(v / 256, n - 1)
  }

  function FromLittleEndian(s: seq<byte>): nat {
    if s == [] then 0 else (s[0] as int) + 256 * FromLittleEndian(s[1..])
  }

  function Pow256(n: nat): nat {
    if n == 0 then 1 else 256 * Pow256(n - 1)
  }

  lemma {:induction false} LittleEndianRoundTrip(v: nat, n: nat)
    requires v < Pow256(n)
    ensures FromLittleEndian(LittleEndian(v, n)) == v
  {
    if n > 0 {
      LittleEndianRoundTrip(v / 256, n - 1);
    }
  }

  /** Two octets, most significant first. */
  function U16(v: nat): (s: seq<byte>)
    requires v < 0x1_0000
    ensures |s| == 2
  {
    [v / 256, v % 256]
  }

  function FromU16(s: seq<byte>, i: nat): (v: nat)
    requires i + 2 <= |s|
    ensures v < 0x1_0000
  {
    (s[i] as int) * 256 + s[i + 1]
  }

  /** Four octets, most significant first. */
  function U32(v: nat): (s: seq<byte>)
    requires v < 0x1_0000_0000
    ensures |s| == 4
  {
    U16(v / 0x1_0000) + U16(v % 0x1_0000)
  }

  function FromU32(s: seq<byte>, i: nat): (v: nat)
    requires i + 4 <= |s|
    ensures v < 0x1_0000_0000
  {
    0x1_0000 * FromU16(s, i) + FromU16(s, i + 2)
  }

  lemma {:induction false} U16RoundTrip(v: nat)
    requires v < 0x1_0000
    ensures FromU16(U16(v), 0) == v
  {
  }

  lemma {:induction false} U32RoundTrip(v: nat)
    requires v < 0x1_0000_0000
    ensures FromU32(U32(v), 0) == v
  {
    U16RoundTrip(v / 0x1_0000);
    U16RoundTrip(v % 0x1_0000);
  }

  /** ASCII lower case; no other octet changes. */
  function LowerByte(b: byte): byte {
    if 65 <= b <= 90 then b + 32 else b
  }

  function LowerBytes(s: seq<byte>): (l: seq<byte>)
    ensures |l| == |s|
    ensures forall i :: 0 <= i < |s| ==> l[i] == LowerByte(s[i])
  {
    seq(|s|, i requires 0 <= i < |s| => LowerByte(s[i]))
  }

  /** The octets `s` stand at offset `p`. */
  ghost predicate At(w: seq<byte>, p: nat, s: seq<byte>) {
    p + |s| <= |w| && w[p..p + |s|] == s
  }

  lemma {:induction false} AtSplit(w: seq<byte>, p: nat, a: seq<byte>, b: seq<byte>)
    requires At(w, p, a + b)
    ensures At(w, p, a) && At(w, p + |a|, b)
  {
    var s := w[p..p + |a + b|];
    assert s[..|a|] == a && s[|a|..] == b;
    assert w[p..p + |a|] == s[..|a|];
    assert w[p + |a|..p + |a| + |b|] == s[|a|..];
  }

  lemma {:induction false} AtOne(w: seq<byte>, p: nat, v: byte)
    requires At(w, p, [v])
    ensures p < |w| && w[p] == v
  {
    assert w[p] == w[p..p + 1][0];
  }

  lemma {:induction false} AtIs(w: seq<byte>, p: nat, s: seq<byte>)
    requires At(w, p, s)
    ensures p + |s| <= |w| && w[p..p + |s|] == s
  {
  }

  lemma {:induction false} U16At(w: seq<byte>, p: nat, v: nat)
    requires v < 0x1_0000 && At(w, p, U16(v))
    ensures p + 2 <= |w| && FromU16(w, p) == v
  {
    assert w[p] == w[p..p + 2][0] && w[p + 1] == w[p..p + 2][1];
  }

  lemma {:induction false} U32At(w: seq<byte>, p: nat, v: nat)
    requires v < 0x1_0000_0000 && At(w, p, U32(v))
    ensures p + 4 <= |w| && FromU32(w, p) == v
  {
    AtSplit(w, p, U16(v / 0x1_0000), U16(v % 0x1_0000));
    U16At(w, p, v / 0x1_0000);
    U16At(w, p + 2, v % 0x1_0000);
  }
}
