// Verification and the replay window together (auth_zone/tsig.py, verify_wire with
// a replay window): which signed octets are accepted a second time.

module TsigReplay {
  import opened Wrappers
  import opened Bytes
  import opened Tsig
  import opened ReplayWindows

  /** What one verifier works with: the hash, the keyring, the text of a key name in
    * lower case, what the request MAC is, and its own bound on the fudge. */
  datatype Verifier = Verifier(hmac: Hmac, find: seq<Label> -> Option<Key>, text: seq<Label> -> string,
                               requestMac: Option<seq<byte>>, fudgeMax: nat, timersOnly: bool)
  {
    ghost predicate Valid() {
      && (forall owner :: find(owner).Some? ==> NameFits(find(owner).value.name))
      && (requestMac.Some? ==> |requestMac.value| < 0x1_0000)
    }
  }

  /** A message, and when it comes. */
  datatype Arrival = Arrival(wire: seq<byte>, now: int)

  function Verify(v: Verifier, a: Arrival): Verdict
    requires v.Valid()
  {
    VerifyWire(v.hmac, a.wire, v.find, v.requestMac, a.now, v.fudgeMax, v.timersOnly)
  }

  /** What the window is asked; a message that does not verify is one that no window
    * accepts. */
  function AttemptOf(v: Verifier, a: Arrival): Attempt
    requires v.Valid()
  {
    match Verify(v, a)
    case Accepted(mac, _, t) =>
      Attempt(v.text(Locate(a.wire).value.2), t.time, mac, if t.fudge < v.fudgeMax then t.fudge else v.fudgeMax, a.now)
    case _ => Attempt("", if a.now == 0 then 1 else 0, [], 0, a.now)
  }

  /** Only what verifies passes the clock test, and everything that does. */
  lemma {:induction false} VerifiedIsTimely(v: Verifier, a: Arrival)
    requires v.Valid()
    ensures Timely(AttemptOf(v, a)) <==> Verify(v, a).Accepted?
    ensures AttemptOf(v, a).now == a.now
  {
    hide Locate, DigestInput, Rebuilt, LowerLabels;
  }

  function Attempts(v: Verifier, run: seq<Arrival>): (attempts: seq<Attempt>)
    requires v.Valid()
    ensures |attempts| == |run| && forall i :: 0 <= i < |run| ==> attempts[i] == AttemptOf(v, run[i])
  {
    seq(|run|, i requires 0 <= i < |run| => AttemptOf(v, run[i]))
  }

  /** The verifier and its window accept turn `i`. */
  predicate Passes(v: Verifier, maxKeys: nat, run: seq<Arrival>, i: nat)
    requires v.Valid() && i < |run|
  {
    AcceptedAt(maxKeys, Attempts(v, run), i)
  }

  /** The same octets are signed, under the same key: the stripped message and the
    * TSIG variables. The MAC and the letter case of names are not among them. */
  predicate SameSigned(v: Verifier, a: seq<byte>, b: seq<byte>) {
    match (Locate(a), Locate(b))
    case (Some((p, t, owner)), Some((q, u, other))) =>
      LocatedFits(a);
      LocatedFits(b);
      && Rebuilt(a, p, t) == Rebuilt(b, q, u)
      && v.text(owner) == v.text(other) && v.find(owner) == v.find(other)
      && LowerLabels(t.algorithm) == LowerLabels(u.algorithm)
      && t.(mac := [], algorithm := []) == u.(mac := [], algorithm := [])
    case _ => false
  }

  /** The digest is then the same. */
  lemma {:induction false} SameDigest(key: Key, m: seq<byte>, t: TsigData, u: TsigData, requestMac: Option<seq<byte>>, timersOnly: bool)
    requires NameFits(key.name) && Readable(t) && Readable(u) && (requestMac.Some? ==> |requestMac.value| < 0x1_0000)
    requires LowerLabels(t.algorithm) == LowerLabels(u.algorithm)
    requires t.(mac := [], algorithm := []) == u.(mac := [], algorithm := [])
    ensures DigestInput(key, m, t, requestMac, timersOnly) == DigestInput(key, m, u, requestMac, timersOnly)
  {
  }

  /** Two accepted MACs of the same signed octets are beginnings of one digest. */
  lemma {:induction false} SameSignedSameMac(v: Verifier, a: Arrival, b: Arrival)
    requires v.Valid() && SameSigned(v, a.wire, b.wire) && Verify(v, a).Accepted? && Verify(v, b).Accepted?
    ensures var x, y := AttemptOf(v, a), AttemptOf(v, b);
            && x.key == y.key && x.time == y.time && x.window == y.window
            && (|x.mac| == |y.mac| ==> x.mac == y.mac)
  {
    var (p, t, owner) := Locate(a.wire).value;
    var (q, u, other) := Locate(b.wire).value;
    LocatedFits(a.wire);
    LocatedFits(b.wire);
    hide Locate, DigestInput, Rebuilt, LowerLabels;
    SameDigest(v.find(owner).value, Rebuilt(a.wire, p, t), t, u, v.requestMac, v.timersOnly);
  }

  /** At most once, for signed octets. Under the conditions on clock, keys and windows,
    * whatever signed octets are accepted twice came with MACs of two lengths. */
  lemma {:induction false} SignedAtMostOnce(v: Verifier, maxKeys: nat, run: seq<Arrival>, i: nat, j: nat)
    requires v.Valid() && i < j < |run| && SameSigned(v, run[i].wire, run[j].wire)
    requires var attempts := Attempts(v, run);
             ClockRuns(attempts) && |KeysOf(attempts)| <= maxKeys && WindowsNeverShrink(maxKeys, attempts)
    requires Passes(v, maxKeys, run, i) && Passes(v, maxKeys, run, j)
    ensures |AttemptOf(v, run[i]).mac| != |AttemptOf(v, run[j]).mac|
  {
    hide SameSigned, Verify, AttemptOf, ClockRuns, WindowsNeverShrink, KeysOf;
    var attempts := Attempts(v, run);
    AcceptedInRun(maxKeys, attempts, i);
    AcceptedInRun(maxKeys, attempts, j);
    VerifiedIsTimely(v, run[i]);
    VerifiedIsTimely(v, run[j]);
    SameSignedSameMac(v, run[i], run[j]);
    if SameMessage(attempts[i], attempts[j]) {
      AcceptedAtMostOnce(maxKeys, attempts, i, j);
    }
  }

  /** And that is needed: whatever message is signed, a copy of it with the MAC cut short
    * to a length that verifies passes after the original, while both are timely. */
  lemma {:induction false} CutCopyPasses(v: Verifier, maxKeys: nat, m: seq<byte>, key: Key, time: nat, fudge: nat,
                                         other: seq<byte>, n: nat, now: int, later: int)
    requires v.Valid() && WellFormed(m) && ArCount(m) < 0xFFFF && v.find(key.name) == Some(key)
    requires Signable(v.hmac, m, key, v.requestMac, time, fudge, None, 0, other)
    requires var full := |SignWire(v.hmac, m, key, v.requestMac, time, fudge, None, 0, other, v.timersOnly).1|;
             n < full && CutFits(n, full)
    requires var window := if fudge < v.fudgeMax then fudge else v.fudgeMax;
             Abs(now - time) <= window && Abs(later - time) <= window
    ensures var (signed, mac) := SignWire(v.hmac, m, key, v.requestMac, time, fudge, None, 0, other, v.timersOnly);
            var (cut, _) := SignCut(v.hmac, m, key, v.requestMac, time, fudge, 0, other, v.timersOnly, n);
            var run := [Arrival(signed, now), Arrival(cut, later)];
            SameSigned(v, signed, cut) && Passes(v, maxKeys, run, 0) && Passes(v, maxKeys, run, 1)
  {
    hide Locate, DigestInput, LowerLabels, AppendTsig, Rebuilt, VerifyWire, Walk, FromU16, AcceptedAt;
    var (signed, mac) := SignWire(v.hmac, m, key, v.requestMac, time, fudge, None, 0, other, v.timersOnly);
    var (cut, t) := SignCut(v.hmac, m, key, v.requestMac, time, fudge, 0, other, v.timersOnly, n);
    assert mac[..|mac|] == mac && CutFits(|mac|, |mac|);
    CutVerifies(v.hmac, m, signed, key, v.requestMac, time, fudge, 0, other, v.timersOnly, |mac|, v.find, now, v.fudgeMax);
    CutVerifies(v.hmac, m, cut, key, v.requestMac, time, fudge, 0, other, v.timersOnly, n, v.find, later, v.fudgeMax);
    var run := [Arrival(signed, now), Arrival(cut, later)];
    var attempts := Attempts(v, run);
    TwoMacsPass(maxKeys, attempts);
  }

  /** Two timely messages of one key and time with different MACs are both accepted. */
  lemma {:induction false} TwoMacsPass(maxKeys: nat, run: seq<Attempt>)
    requires |run| == 2 && Timely(run[0]) && Timely(run[1])
    requires run[0].time == run[1].time && run[0].mac != run[1].mac
    ensures AcceptedAt(maxKeys, run, 0) && AcceptedAt(maxKeys, run, 1)
  {
    hide AcceptedAt, Timely, Forgotten, ClearedBetween;
    AcceptedInRun(maxKeys, run, 0);
    AcceptedInRun(maxKeys, run, 1);
  }
}
