// The replay window behind TSIG verification (auth_zone/tsig.py, ReplayWindow).

module ReplayWindows {
  import opened Bytes
  import opened Sets

  type Mac = seq<byte>
  type Seen = seq<(int, Mac)>

  datatype Window = Window(high: map<string, int>, seen: map<string, Seen>)

  const EMPTY: Window := Window(map[], map[])

  datatype Outcome = Fresh | Replayed | TooOld

  /** `[(t, m) for t, m in seen if t >= cutoff]`. */
  function Prune(seen: Seen, cutoff: int): (kept: Seen)
    ensures forall e :: e in kept <==> e in seen && e.0 >= cutoff
  {
    if seen == [] then [] else (if seen[0].0 >= cutoff then [seen[0]] else []) + Prune(seen[1..], cutoff)
  }

  /** `check`. A refused message leaves the window as it was. */
  function Check(w: Window, maxKeys: nat, key: string, time: int, mac: Mac, window: nat, now: int): (Window, Outcome) {
    var known := key in w.seen;
    var seen := if known then Prune(w.seen[key], now - window) else [];
    if known && exists e :: e in seen && e.1 == mac then (w, Replayed)
    else
      var v := if !known && |w.seen| >= maxKeys then EMPTY else w;
      if key in v.high && time < v.high[key] - window then (v, TooOld)
      else
        var was := if key in v.high then v.high[key] else 0;
        (Window(v.high[key := if was > time then was else time], v.seen[key := seen + [(time, mac)]]), Fresh)
  }

  class ReplayWindow {
    const maxKeys: nat
    var high: map<string, int>
    var seen: map<string, Seen>

    function Contents(): Window
      reads this
    {
      Window(high, seen)
    }

    constructor (maxKeys: nat)
      ensures this.maxKeys == maxKeys && Contents() == EMPTY
    {
      this.maxKeys, high, seen := maxKeys, map[], map[];
    }

    method CheckMessage(key: string, time: int, mac: Mac, window: nat, now: int) returns (r: Outcome)
      modifies this
      ensures (Contents(), r) == Check(old(Contents()), maxKeys, key, time, mac, window, now)
    {
      var recent: Seen := [];
      if key in seen {
        recent := Prune(seen[key], now - window);
        if exists e :: e in recent && e.1 == mac {
          return Replayed;
        }
      } else if |seen| >= maxKeys {
        seen, high := map[], map[];
      }
      if key in high && time < high[key] - window {
        return TooOld;
      }
      seen := seen[key := recent + [(time, mac)]];
      var was := if key in high then high[key] else 0;
      high := high[key := if was > time then was else time];
      return Fresh;
    }
  }

  // ---- Runs ----

  /** One signed message at the verifier: `window` is what its fudge allows. */
  datatype Attempt = Attempt(key: string, time: nat, mac: Mac, window: nat, now: int)

  /** The clock test of `verify_wire`. */
  predicate Timely(a: Attempt) {
    -(a.window as int) <= a.now - a.time <= a.window
  }

  function Handle(w: Window, maxKeys: nat, a: Attempt): (Window, bool) {
    if !Timely(a) then (w, false)
    else
      var (w', outcome) := Check(w, maxKeys, a.key, a.time, a.mac, a.window, a.now);
      (w', outcome == Fresh)
  }

  function After(maxKeys: nat, run: seq<Attempt>): Window {
    if run == [] then EMPTY else Handle(After(maxKeys, run[..|run| - 1]), maxKeys, run[|run| - 1]).0
  }

  predicate AcceptedAt(maxKeys: nat, run: seq<Attempt>, i: nat)
    requires i < |run|
  {
    Handle(After(maxKeys, run[..i]), maxKeys, run[i]).1
  }

  /** What is accepted: a timely message whose MAC is not among those still
    * remembered, and whose time is not a whole window behind the newest. */
  lemma {:induction false} AcceptedExactly(w: Window, maxKeys: nat, a: Attempt)
    ensures Handle(w, maxKeys, a).1 <==>
            && Timely(a)
            && (a.key in w.seen ==> forall e :: e in w.seen[a.key] && e.0 >= a.now - a.window ==> e.1 != a.mac)
            && (a.key in w.high && !(a.key !in w.seen && |w.seen| >= maxKeys) ==> a.time >= w.high[a.key] - a.window)
  {
    if a.key in w.seen {
      var recent := Prune(w.seen[a.key], a.now - a.window);
      assert forall e :: e in recent <==> e in w.seen[a.key] && e.0 >= a.now - a.window;
    }
  }

  /** The same message, sent again. */
  predicate SameMessage(a: Attempt, b: Attempt) {
    a.key == b.key && a.time == b.time && a.mac == b.mac && a.window == b.window
  }

  ghost predicate ClockRuns(run: seq<Attempt>) {
    forall i, j :: 0 <= i <= j < |run| ==> run[i].now <= run[j].now
  }

  /** The keys of the timely messages. */
  function KeysOf(run: seq<Attempt>): set<string> {
    set a | a in run && Timely(a) :: a.key
  }

  /** No message is accepted under a narrower window than an earlier one of its key. */
  ghost predicate WindowsNeverShrink(maxKeys: nat, run: seq<Attempt>) {
    forall i, j :: 0 <= i < j < |run| && run[i].key == run[j].key && AcceptedAt(maxKeys, run, i) && AcceptedAt(maxKeys, run, j)
      ==> run[i].window <= run[j].window
  }

  lemma {:induction false} AfterNext(maxKeys: nat, run: seq<Attempt>, n: nat)
    requires n < |run|
    ensures After(maxKeys, run[..n + 1]) == Handle(After(maxKeys, run[..n]), maxKeys, run[n]).0
  {
    assert run[..n + 1][..n] == run[..n];
  }

  /** The window knows only keys that have sent something. */
  lemma {:induction false} KnownKeys(maxKeys: nat, run: seq<Attempt>, n: nat)
    requires n <= |run|
    ensures After(maxKeys, run[..n]).seen.Keys <= KeysOf(run[..n])
    decreases n
  {
    if n > 0 {
      KnownKeys(maxKeys, run, n - 1);
      AfterNext(maxKeys, run, n - 1);
      assert run[..n] == run[..n - 1] + [run[n - 1]];
    }
  }

  /** While no more than `max_keys` keys send, a new key never clears the window. */
  lemma {:induction false} NeverCleared(maxKeys: nat, run: seq<Attempt>, n: nat)
    requires n < |run| && |KeysOf(run)| <= maxKeys
    ensures !ClearedAt(maxKeys, run, n)
  {
    KnownKeys(maxKeys, run, n);
    var known := After(maxKeys, run[..n]).seen.Keys;
    assert forall a :: a in run[..n] ==> a in run;
    assert run[n] in run;
    if Timely(run[n]) && run[n].key !in known {
      Smaller(known, KeysOf(run), run[n].key);
    }
  }

  lemma {:induction false} Smaller(a: set<string>, b: set<string>, x: string)
    requires a <= b && x in b && x !in a
    ensures |a| < |b|
  {
    SubsetSize(a, b - {x});
  }

  // ---- What the window holds after a run ----

  predicate InSeen(w: Window, key: string, e: (int, Mac)) {
    key in w.seen && e in w.seen[key]
  }

  /** A key that the full window does not know makes it forget everything. */
  predicate Clears(w: Window, maxKeys: nat, a: Attempt) {
    Timely(a) && a.key !in w.seen && |w.seen| >= maxKeys
  }

  predicate ClearedAt(maxKeys: nat, run: seq<Attempt>, k: nat)
    requires k < |run|
  {
    Clears(After(maxKeys, run[..k]), maxKeys, run[k])
  }

  ghost predicate ClearedBetween(maxKeys: nat, run: seq<Attempt>, i: nat, n: nat)
    requires n <= |run|
  {
    exists k | i < k < n :: ClearedAt(maxKeys, run, k)
  }

  /** Turn `k` makes the window forget the message of turn `i`: it clears everything,
    * or it is accepted and finds that time outside its own window. */
  predicate Forgets(maxKeys: nat, run: seq<Attempt>, i: nat, k: nat)
    requires i < |run| && k < |run|
  {
    || ClearedAt(maxKeys, run, k)
    || (AcceptedAt(maxKeys, run, k) && run[k].key == run[i].key && run[k].now - run[k].window > run[i].time)
  }

  ghost predicate Forgotten(maxKeys: nat, run: seq<Attempt>, i: nat, n: nat)
    requires i < |run| && n <= |run|
  {
    exists k | i < k < n :: Forgets(maxKeys, run, i, k)
  }

  /** Both dictionaries know the same keys. */
  lemma {:induction false} SameKeys(maxKeys: nat, run: seq<Attempt>)
    ensures After(maxKeys, run).high.Keys == After(maxKeys, run).seen.Keys
    decreases |run|
  {
    if run != [] {
      SameKeys(maxKeys, run[..|run| - 1]);
      HandleKeepsKeys(After(maxKeys, run[..|run| - 1]), maxKeys, run[|run| - 1]);
    }
  }

  lemma {:induction false} HandleKeepsKeys(w: Window, maxKeys: nat, a: Attempt)
    requires w.high.Keys == w.seen.Keys
    ensures Handle(w, maxKeys, a).0.high.Keys == Handle(w, maxKeys, a).0.seen.Keys
  {
  }

  lemma {:induction false} StepSeen(w: Window, maxKeys: nat, a: Attempt, key: string, e: (int, Mac))
    ensures var (w', accepted) := Handle(w, maxKeys, a);
            InSeen(w', key, e) <==>
            || (accepted && key == a.key && e == (a.time, a.mac))
            || (InSeen(w, key, e) && !Clears(w, maxKeys, a) && !(accepted && key == a.key && e.0 < a.now - a.window))
  {
  }

  lemma {:induction false} StepHigh(w: Window, maxKeys: nat, a: Attempt, key: string, bound: nat)
    ensures var (w', accepted) := Handle(w, maxKeys, a);
            key in w'.high && w'.high[key] > bound <==>
            || (accepted && key == a.key && a.time > bound)
            || (key in w.high && w.high[key] > bound && !Clears(w, maxKeys, a))
  {
  }

  ghost predicate Holder(maxKeys: nat, run: seq<Attempt>, n: nat, key: string, e: (int, Mac), i: nat)
    requires n <= |run|
  {
    i < n && AcceptedAt(maxKeys, run, i) && run[i].key == key && (run[i].time, run[i].mac) == e && !Forgotten(maxKeys, run, i, n)
  }

  /** How a holder of one turn is a holder of the next. */
  lemma {:induction false} HolderNext(maxKeys: nat, run: seq<Attempt>, n: nat, key: string, e: (int, Mac), i: nat)
    requires i < n < |run|
    ensures Holder(maxKeys, run, n + 1, key, e, i) <==> Holder(maxKeys, run, n, key, e, i) && !Forgets(maxKeys, run, i, n)
  {
    hide AcceptedAt, Forgets;
    ForgottenNext(maxKeys, run, i, n);
  }

  lemma {:induction false} NewHolder(maxKeys: nat, run: seq<Attempt>, n: nat, key: string, e: (int, Mac))
    requires n < |run|
    ensures Holder(maxKeys, run, n + 1, key, e, n) <==>
            AcceptedAt(maxKeys, run, n) && run[n].key == key && (run[n].time, run[n].mac) == e
  {
    hide AcceptedAt, Forgets;
  }

  /** The window holds exactly the accepted messages that no later turn made it forget. */
  lemma {:induction false} SeenExactly(maxKeys: nat, run: seq<Attempt>, n: nat, key: string, e: (int, Mac))
    requires n <= |run|
    ensures InSeen(After(maxKeys, run[..n]), key, e) <==> exists i :: Holder(maxKeys, run, n, key, e, i)
    decreases n
  {
    hide Handle, Clears, Forgets, Holder, InSeen;
    if n == 0 {
      NothingHeld(maxKeys, run, key, e);
    } else {
      var m := n - 1;
      var w := After(maxKeys, run[..m]);
      SeenExactly(maxKeys, run, m, key, e);
      AfterNext(maxKeys, run, m);
      StepSeen(w, maxKeys, run[m], key, e);
      NewHolder(maxKeys, run, m, key, e);
      if i: nat :| Holder(maxKeys, run, n, key, e, i) {
        HolderIsEarlier(maxKeys, run, n, key, e, i);
        if i < m {
          HolderNext(maxKeys, run, m, key, e, i);
          ForgetsHere(maxKeys, run, m, key, e, i);
        }
      }
      if i: nat :| Holder(maxKeys, run, m, key, e, i) {
        HolderIsEarlier(maxKeys, run, m, key, e, i);
        HolderNext(maxKeys, run, m, key, e, i);
        ForgetsHere(maxKeys, run, m, key, e, i);
      }
    }
  }

  lemma {:induction false} NothingHeld(maxKeys: nat, run: seq<Attempt>, key: string, e: (int, Mac))
    ensures !InSeen(After(maxKeys, run[..0]), key, e) && forall i :: !Holder(maxKeys, run, 0, key, e, i)
  {
  }

  lemma {:induction false} HolderIsEarlier(maxKeys: nat, run: seq<Attempt>, n: nat, key: string, e: (int, Mac), i: nat)
    requires n <= |run| && Holder(maxKeys, run, n, key, e, i)
    ensures i < n && run[i].key == key && run[i].time == e.0
  {
  }

  lemma {:induction false} ForgottenNext(maxKeys: nat, run: seq<Attempt>, i: nat, n: nat)
    requires i < n < |run|
    ensures Forgotten(maxKeys, run, i, n + 1) <==> Forgotten(maxKeys, run, i, n) || Forgets(maxKeys, run, i, n)
  {
  }

  lemma {:induction false} ForgetsHere(maxKeys: nat, run: seq<Attempt>, n: nat, key: string, e: (int, Mac), i: nat)
    requires i < n < |run| && run[i].key == key && run[i].time == e.0
    ensures Forgets(maxKeys, run, i, n) <==>
            || Clears(After(maxKeys, run[..n]), maxKeys, run[n])
            || (Handle(After(maxKeys, run[..n]), maxKeys, run[n]).1 && key == run[n].key && e.0 < run[n].now - run[n].window)
  {
    hide Handle, Clears;
  }

  ghost predicate Marker(maxKeys: nat, run: seq<Attempt>, n: nat, key: string, bound: nat, i: nat)
    requires n <= |run|
  {
    i < n && AcceptedAt(maxKeys, run, i) && run[i].key == key && run[i].time > bound && !ClearedBetween(maxKeys, run, i, n)
  }

  /** The mark of a key is the latest time accepted from it since the last clearing. */
  lemma {:induction false} HighExactly(maxKeys: nat, run: seq<Attempt>, n: nat, key: string, bound: nat)
    requires n <= |run|
    ensures var w := After(maxKeys, run[..n]);
            key in w.high && w.high[key] > bound <==> exists i :: Marker(maxKeys, run, n, key, bound, i)
    decreases n
  {
    hide Handle, Clears;
    if n > 0 {
      HighExactly(maxKeys, run, n - 1, key, bound);
      AfterNext(maxKeys, run, n - 1);
      StepHigh(After(maxKeys, run[..n - 1]), maxKeys, run[n - 1], key, bound);
      assert AcceptedAt(maxKeys, run, n - 1) && run[n - 1].key == key && run[n - 1].time > bound
             ==> Marker(maxKeys, run, n, key, bound, n - 1);
      forall i | 0 <= i < n - 1
        ensures Marker(maxKeys, run, n, key, bound, i) <==>
                Marker(maxKeys, run, n - 1, key, bound, i) && !ClearedAt(maxKeys, run, n - 1)
      {
        ClearedNext(maxKeys, run, i, n - 1);
      }
      if i: nat :| Marker(maxKeys, run, n, key, bound, i) {
        assert i < n - 1 ==> Marker(maxKeys, run, n - 1, key, bound, i);
      }
      var m := n - 1;
      if i: nat :| Marker(maxKeys, run, m, key, bound, i) {
        assert !ClearedAt(maxKeys, run, n - 1) ==> Marker(maxKeys, run, n, key, bound, i);
      }
    }
  }

  lemma {:induction false} ClearedNext(maxKeys: nat, run: seq<Attempt>, i: nat, n: nat)
    requires i < n < |run|
    ensures ClearedBetween(maxKeys, run, i, n + 1) <==> ClearedBetween(maxKeys, run, i, n) || ClearedAt(maxKeys, run, n)
  {
  }

  // ---- When a message is accepted ----

  /** Turn `i` is a reason to refuse turn `j`: an accepted message of the same key
    * and MAC, not yet out of its window and not forgotten. */
  ghost predicate Blocks(maxKeys: nat, run: seq<Attempt>, i: nat, j: nat)
    requires i < j < |run|
  {
    && AcceptedAt(maxKeys, run, i) && run[i].key == run[j].key && run[i].mac == run[j].mac
    && run[i].time >= run[j].now - run[j].window && !Forgotten(maxKeys, run, i, j)
  }

  /** Turn `i` is another one: a message of the same key, more than a window later. */
  ghost predicate Outdates(maxKeys: nat, run: seq<Attempt>, i: nat, j: nat)
    requires i < j < |run|
  {
    && AcceptedAt(maxKeys, run, i) && run[i].key == run[j].key
    && run[i].time > run[j].time + run[j].window && !ClearedBetween(maxKeys, run, i, j)
  }

  /** In every run, a message is accepted if and only if it is timely and no earlier
    * turn blocks or outdates it. */
  lemma {:induction false} AcceptedInRun(maxKeys: nat, run: seq<Attempt>, j: nat)
    requires j < |run|
    ensures AcceptedAt(maxKeys, run, j) <==>
            && Timely(run[j])
            && (forall i | 0 <= i < j :: !Blocks(maxKeys, run, i, j))
            && (forall i | 0 <= i < j :: !Outdates(maxKeys, run, i, j))
  {
    hide Handle, After, Forgotten, ClearedBetween;
    var w, a := After(maxKeys, run[..j]), run[j];
    AcceptedExactly(w, maxKeys, a);
    SameKeys(maxKeys, run[..j]);
    NoneBlocks(maxKeys, run, j);
    NoneOutdates(maxKeys, run, j);
  }

  lemma {:induction false} NoneBlocks(maxKeys: nat, run: seq<Attempt>, j: nat)
    requires j < |run|
    ensures var w, a := After(maxKeys, run[..j]), run[j];
            (forall i | 0 <= i < j :: !Blocks(maxKeys, run, i, j)) <==>
            (a.key in w.seen ==> forall e :: e in w.seen[a.key] && e.0 >= a.now - a.window ==> e.1 != a.mac)
  {
    hide After, AcceptedAt, Forgotten;
    var w, a := After(maxKeys, run[..j]), run[j];
    forall i | 0 <= i < j && Blocks(maxKeys, run, i, j)
      ensures InSeen(w, a.key, (run[i].time, run[i].mac))
    {
      SeenExactly(maxKeys, run, j, a.key, (run[i].time, run[i].mac));
      assert Holder(maxKeys, run, j, a.key, (run[i].time, run[i].mac), i);
    }
    if a.key in w.seen {
      forall e | e in w.seen[a.key] && e.0 >= a.now - a.window && e.1 == a.mac
        ensures exists i | 0 <= i < j :: Blocks(maxKeys, run, i, j)
      {
        SeenExactly(maxKeys, run, j, a.key, e);
        var i :| Holder(maxKeys, run, j, a.key, e, i);
        assert Blocks(maxKeys, run, i, j);
      }
    }
  }

  lemma {:induction false} NoneOutdates(maxKeys: nat, run: seq<Attempt>, j: nat)
    requires j < |run|
    ensures var w, a := After(maxKeys, run[..j]), run[j];
            (forall i | 0 <= i < j :: !Outdates(maxKeys, run, i, j)) <==>
            (a.key in w.high ==> a.time >= w.high[a.key] - a.window)
  {
    hide After, AcceptedAt, ClearedBetween;
    var w, a := After(maxKeys, run[..j]), run[j];
    var bound := a.time + a.window;
    HighExactly(maxKeys, run, j, a.key, bound);
    forall i | 0 <= i < j
      ensures Outdates(maxKeys, run, i, j) <==> Marker(maxKeys, run, j, a.key, bound, i)
    {
    }
    if i: nat :| Marker(maxKeys, run, j, a.key, bound, i) {
      assert Outdates(maxKeys, run, i, j);
    }
  }

  /** Whether a message that was accepted is accepted again. Let `i` be the last turn
    * before `j` that accepted this key and MAC, and let `j` be timely and not
    * outdated. Then it is, if and only if some turn between them cleared the window
    * or accepted the same key and found the time outside its own window. */
  lemma {:induction false} AcceptedAgainExactly(maxKeys: nat, run: seq<Attempt>, i: nat, j: nat)
    requires i < j < |run| && SameMessage(run[i], run[j]) && AcceptedAt(maxKeys, run, i)
    requires forall m | i < m < j && run[m].key == run[i].key && run[m].mac == run[i].mac :: !AcceptedAt(maxKeys, run, m)
    requires Timely(run[j]) && forall m | 0 <= m < j :: !Outdates(maxKeys, run, m, j)
    ensures AcceptedAt(maxKeys, run, j) <==> Forgotten(maxKeys, run, i, j)
  {
    hide AcceptedAt, Outdates, ClearedAt;
    AcceptedInRun(maxKeys, run, i);
    AcceptedInRun(maxKeys, run, j);
    forall m | 0 <= m < j && m != i
      ensures !Blocks(maxKeys, run, m, j)
    {
      if m < i && AcceptedAt(maxKeys, run, m) && run[m].key == run[j].key && run[m].mac == run[j].mac {
        assert !Blocks(maxKeys, run, m, i);
        assert run[m].time < run[i].now - run[i].window ==> Forgets(maxKeys, run, m, i);
        StaysForgotten(maxKeys, run, m, i, j);
      }
    }
    assert Blocks(maxKeys, run, i, j) <==> !Forgotten(maxKeys, run, i, j);
  }

  lemma {:induction false} StaysForgotten(maxKeys: nat, run: seq<Attempt>, m: nat, i: nat, j: nat)
    requires m < i < j <= |run|
    ensures Forgotten(maxKeys, run, m, i) || Forgets(maxKeys, run, m, i) ==> Forgotten(maxKeys, run, m, j)
  {
  }

  /** Accept at most once. While the clock does not run backwards, no more than
    * `max_keys` keys send, and no key's accepted windows shrink (as they do not
    * when the effective window is fixed), no message is accepted twice. */
  lemma {:induction false} AcceptedAtMostOnce(maxKeys: nat, run: seq<Attempt>, i: nat, j: nat)
    requires i < j < |run| && SameMessage(run[i], run[j])
    requires ClockRuns(run) && |KeysOf(run)| <= maxKeys && WindowsNeverShrink(maxKeys, run)
    ensures !(AcceptedAt(maxKeys, run, i) && AcceptedAt(maxKeys, run, j))
  {
    hide AcceptedAt, Outdates, ClearedAt;
    AcceptedInRun(maxKeys, run, j);
    if AcceptedAt(maxKeys, run, i) && Timely(run[j]) {
      forall k | i < k < j
        ensures !Forgets(maxKeys, run, i, k)
      {
        NeverCleared(maxKeys, run, k);
        assert run[k].now <= run[j].now;
      }
      assert Blocks(maxKeys, run, i, j);
    }
  }

  /** With one fixed window the windows never shrink. */
  lemma {:induction false} FixedWindowNeverShrinks(maxKeys: nat, run: seq<Attempt>, window: nat)
    requires forall a :: a in run ==> a.window == window
    ensures WindowsNeverShrink(maxKeys, run)
  {
    forall i, j | 0 <= i < j < |run|
      ensures run[i].window <= run[j].window
    {
      assert run[i] in run && run[j] in run;
    }
  }

  /** A key that the window does not know is accepted, and if the window is full
    * everything else is forgotten. */
  lemma {:induction false} FirstOfKey(w: Window, maxKeys: nat, a: Attempt)
    requires Timely(a) && a.key !in w.seen && a.key !in w.high && a.time >= 0
    ensures var (w', accepted) := Handle(w, maxKeys, a);
            && accepted && a.key in w'.high && w'.high[a.key] == a.time
            && w'.seen == (if |w.seen| >= maxKeys then map[] else w.seen)[a.key := [(a.time, a.mac)]]
            && w'.high.Keys == (if |w.seen| >= maxKeys then {} else w.high.Keys) + {a.key}
  {
    assert [] + [(a.time, a.mac)] == [(a.time, a.mac)];
  }

  /** A message of a key all of whose remembered messages are too old by now. */
  lemma {:induction false} AllForgotten(w: Window, maxKeys: nat, a: Attempt)
    requires Timely(a) && a.key in w.seen && a.key in w.high && a.time >= w.high[a.key] - a.window
    requires forall e :: e in w.seen[a.key] ==> e.0 < a.now - a.window || e.1 != a.mac
    ensures var (w', accepted) := Handle(w, maxKeys, a);
            && accepted && a.key in w'.high && a.key in w'.seen
            && w'.high[a.key] == (if w.high[a.key] > a.time then w.high[a.key] else a.time)
            && w'.seen[a.key] == Prune(w.seen[a.key], a.now - a.window) + [(a.time, a.mac)]
  {
  }

  /** The condition on windows is needed: a message accepted under a narrow window
    * makes the key forget one that is still good under its own, wider window. */
  lemma {:induction false} NarrowWindowForgets()
    ensures var wide := Attempt("k", 100, [1], 300, 100);
            var narrow := Attempt("k", 150, [2], 10, 150);
            var run := [wide, narrow, wide.(now := 151)];
            ClockRuns(run) && AcceptedAt(1, run, 0) && AcceptedAt(1, run, 1) && AcceptedAt(1, run, 2)
            && SameMessage(run[0], run[2])
  {
    hide Check, Handle;
    var wide := Attempt("k", 100, [1], 300, 100);
    var narrow := Attempt("k", 150, [2], 10, 150);
    var run := [wide, narrow, wide.(now := 151)];
    var w1, w2 := After(1, run[..1]), After(1, run[..2]);
    assert run[..0] == [] && After(1, run[..0]) == EMPTY;
    FirstOfKey(EMPTY, 1, wide);
    AfterNext(1, run, 0);
    assert w1.seen["k"] == [(100, [1])];
    AllForgotten(w1, 1, narrow);
    AfterNext(1, run, 1);
    assert (100, [1]) !in w2.seen["k"];
    AllForgotten(w2, 1, run[2]);
  }

  /** And so is the limit on keys: one key too many clears the whole window. */
  lemma {:induction false} OneKeyTooManyForgets()
    ensures var a := Attempt("k", 100, [1], 300, 100);
            var b := Attempt("l", 100, [2], 300, 100);
            var run := [a, b, a];
            ClockRuns(run) && AcceptedAt(1, run, 0) && AcceptedAt(1, run, 1) && AcceptedAt(1, run, 2)
  {
    hide Check, Handle;
    var a := Attempt("k", 100, [1], 300, 100);
    var b := Attempt("l", 100, [2], 300, 100);
    var run := [a, b, a];
    assert run[..0] == [] && After(1, run[..0]) == EMPTY;
    FirstOfKey(EMPTY, 1, a);
    AfterNext(1, run, 0);
    var w1 := After(1, run[..1]);
    assert w1.seen.Keys == {"k"} && w1.high.Keys == {"k"};
    FirstOfKey(w1, 1, b);
    AfterNext(1, run, 1);
    var w2 := After(1, run[..2]);
    assert w2.seen.Keys == {"l"} && w2.high.Keys == {"l"};
    FirstOfKey(w2, 1, a);
  }
}
