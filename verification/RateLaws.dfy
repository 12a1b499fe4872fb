// The limiter from outside: which calls are allowed, told from the earlier calls of
// the same key and nothing else.

module RateLaws {
  import opened RateLimiters

  /** Turn `i` is a call of this key. */
  predicate Calls(tr: Trace, key: string, i: int) {
    0 <= i < |tr.turns| && tr.turns[i].event.Call? && tr.turns[i].event.key == key
  }

  /** The calls of this key that were allowed, from turn `i` to before turn `n`. */
  function AllowedFrom(tr: Trace, key: string, i: int, n: int): set<int> {
    set j | i <= j < n && Calls(tr, key, j) && tr.turns[j].ok
  }

  lemma {:induction false} OneMoreAllowed(tr: Trace, key: string, i: int, n: int)
    requires 0 <= i <= n < |tr.turns|
    ensures |AllowedFrom(tr, key, i, n + 1)| == |AllowedFrom(tr, key, i, n)| + if Spends(tr.turns[n], key) then 1 else 0
  {
    assert AllowedFrom(tr, key, i, n + 1) == AllowedFrom(tr, key, i, n) + if Spends(tr.turns[n], key) then {n} else {};
  }

  /** What the stretch since turn `i` leaves for time `t`. */
  function LeftSince(lim: Limiter, tr: Trace, key: string, i: int, n: int, t: real): real
    requires 0 <= i < |tr.turns|
  {
    lim.burst + Flow(lim.rate, t - tr.turns[i].event.now) - |AllowedFrom(tr, key, i, n)| as real
  }

  /** `x` is the burst, or the least that any stretch since a call of the key leaves. */
  ghost predicate IsLeast(lim: Limiter, tr: Trace, key: string, n: int, t: real, x: real)
    requires n <= |tr.turns|
  {
    && x <= lim.burst
    && (forall i :: 0 <= i < n && Calls(tr, key, i) ==> x <= LeftSince(lim, tr, key, i, n, t))
    && (x == lim.burst || exists i :: 0 <= i < n && Calls(tr, key, i) && x == LeftSince(lim, tr, key, i, n, t))
  }

  /** The key starts without a bucket, and no other key's call drops it. */
  ghost predicate Undisturbed(lim: Limiter, tr: Trace, start: real, key: string, n: int) {
    && IsRun(lim, tr, start) && n <= |tr.turns| && key !in tr.first
    && forall i :: 0 <= i < n ==> !Evicts(tr.State(i), tr.turns[i], key)
  }

  /** What a key may spend is the least that any stretch since one of its calls leaves. */
  lemma {:induction false} LevelExactly(lim: Limiter, tr: Trace, start: real, key: string, n: nat, t: real)
    requires Undisturbed(lim, tr, start, key, n) && tr.Clock(start, n) <= t
    ensures IsLeast(lim, tr, key, n, t, Level(lim, tr.State(n), key, t))
    decreases n
  {
    hide Flow, Level, IsLeast, Turns, Calls, Evicts;
    if n == 0 {
      NoCallsYet(lim, tr, key, t);
    } else {
      var turn, now := tr.turns[n - 1], tr.turns[n - 1].event.now;
      assert Turns(lim, tr, start, n - 1);
      StaysSound(lim, tr, start, n - 1);
      ClockIs(lim, tr, start, n - 1);
      if Calls(tr, key, n - 1) {
        LevelExactly(lim, tr, start, key, n - 1, now);
        OwnCall(lim, tr, start, key, n - 1, t);
        LeastAfterCall(lim, tr, key, n - 1, t, Level(lim, tr.State(n - 1), key, now), Level(lim, tr.State(n), key, t));
      } else {
        LevelExactly(lim, tr, start, key, n - 1, t);
        assert !Evicts(tr.State(n - 1), turn, key);
        OtherTurn(lim, tr, start, key, n - 1, t);
        LeastAfterOther(lim, tr, key, n - 1, t, Level(lim, tr.State(n), key, t));
      }
    }
  }

  lemma {:induction false} ClockIs(lim: Limiter, tr: Trace, start: real, n: nat)
    requires n < |tr.turns| && Turns(lim, tr, start, n)
    ensures tr.Clock(start, n) <= tr.turns[n].event.now == tr.Clock(start, n + 1)
  {
    hide Step, Flow;
  }

  lemma {:induction false} NoCallsYet(lim: Limiter, tr: Trace, key: string, t: real)
    requires key !in tr.first
    ensures IsLeast(lim, tr, key, 0, t, Level(lim, tr.State(0), key, t))
  {
    hide Flow;
  }

  /** A call of the key itself takes a token, if it is allowed, and then tokens flow in. */
  lemma {:induction false} OwnCall(lim: Limiter, tr: Trace, start: real, key: string, n: nat, t: real)
    requires IsRun(lim, tr, start) && Calls(tr, key, n) && tr.turns[n].event.now <= t
    requires Sound(lim, tr.State(n), tr.Clock(start, n))
    ensures var now := tr.turns[n].event.now;
            var left := Level(lim, tr.State(n), key, now) - if Spends(tr.turns[n], key) then 1.0 else 0.0;
            Level(lim, tr.State(n + 1), key, t) == Min(lim.burst, left + Flow(lim.rate, t - now))
  {
    hide Flow, Allowed, Sound;
    var turn, now := tr.turns[n], tr.turns[n].event.now;
    TurnIs(lim, tr, start, n);
    CallTakesToken(lim, tr.State(n), key, now, turn.after, turn.ok, tr.Clock(start, n));
    var tokens := Level(lim, tr.State(n), key, now);
    WrittenBucket(lim, tr.State(n), key, now, turn.after, turn.ok);
  }

  lemma {:induction false} WrittenBucket(lim: Limiter, b: Buckets, key: string, now: real, b': Buckets, ok: bool)
    requires lim.rate > 0.0 && Allowed(lim, b, key, now, b', ok)
    ensures key in b' && b'[key] == (Level(lim, b, key, now) - if ok then 1.0 else 0.0, now)
  {
    hide Level, Roomy;
  }

  lemma {:induction false} LeastAfterCall(lim: Limiter, tr: Trace, key: string, n: nat, t: real, x: real, y: real)
    requires n < |tr.turns| && Calls(tr, key, n) && lim.rate > 0.0 && tr.turns[n].event.now <= t
    requires IsLeast(lim, tr, key, n, tr.turns[n].event.now, x)
    requires y == Min(lim.burst, x - (if Spends(tr.turns[n], key) then 1.0 else 0.0) + Flow(lim.rate, t - tr.turns[n].event.now))
    ensures IsLeast(lim, tr, key, n + 1, t, y)
  {
    hide Flow, Calls, AllowedFrom;
    var now := tr.turns[n].event.now;
    var spent := if Spends(tr.turns[n], key) then 1.0 else 0.0;
    var z := x - spent + Flow(lim.rate, t - now);
    forall i | 0 <= i < n
      ensures LeftSince(lim, tr, key, i, n + 1, t) == LeftSince(lim, tr, key, i, n, now) - spent + Flow(lim.rate, t - now)
    {
      OneMoreAllowed(tr, key, i, n);
      FlowLaws(lim.rate, now - tr.turns[i].event.now, t - now);
    }
    OneMoreAllowed(tr, key, n, n);
    NoneYet(tr, key, n);
    assert LeftSince(lim, tr, key, n, n + 1, t) == lim.burst - spent + Flow(lim.rate, t - now);
    if z < lim.burst {
      if x == lim.burst {
        assert z == LeftSince(lim, tr, key, n, n + 1, t);
      } else {
        var i :| 0 <= i < n && Calls(tr, key, i) && x == LeftSince(lim, tr, key, i, n, now);
        assert z == LeftSince(lim, tr, key, i, n + 1, t);
      }
    }
  }

  lemma {:induction false} NoneYet(tr: Trace, key: string, n: int)
    ensures AllowedFrom(tr, key, n, n) == {}
  {
  }

  /** Any other turn leaves the key what it had. */
  lemma {:induction false} OtherTurn(lim: Limiter, tr: Trace, start: real, key: string, n: nat, t: real)
    requires IsRun(lim, tr, start) && n < |tr.turns| && !Calls(tr, key, n) && !Evicts(tr.State(n), tr.turns[n], key)
    requires Sound(lim, tr.State(n), tr.Clock(start, n)) && tr.turns[n].event.now <= t
    ensures Level(lim, tr.State(n + 1), key, t) == Level(lim, tr.State(n), key, t)
  {
    hide Flow, Allowed, Sound, Level, Collected;
    var turn, now := tr.turns[n], tr.turns[n].event.now;
    TurnIs(lim, tr, start, n);
    if turn.event.Gc? {
      GcKeepsLevels(lim, tr.State(n), now, turn.event.idle, tr.Clock(start, n), key, t);
    } else {
      CallTakesToken(lim, tr.State(n), turn.event.key, now, turn.after, turn.ok, tr.Clock(start, n));
      SameBucketSameLevel(lim, tr.State(n), turn.after, key, t);
    }
  }

  lemma {:induction false} LeastAfterOther(lim: Limiter, tr: Trace, key: string, n: nat, t: real, x: real)
    requires n < |tr.turns| && !Calls(tr, key, n) && IsLeast(lim, tr, key, n, t, x)
    ensures IsLeast(lim, tr, key, n + 1, t, x)
  {
    hide Flow, Calls, AllowedFrom;
    forall i | 0 <= i < n
      ensures LeftSince(lim, tr, key, i, n + 1, t) == LeftSince(lim, tr, key, i, n, t)
    {
      OneMoreAllowed(tr, key, i, n);
      NotSpent(tr, key, n);
    }
  }

  lemma {:induction false} NotSpent(tr: Trace, key: string, n: nat)
    requires n < |tr.turns| && !Calls(tr, key, n)
    ensures !Spends(tr.turns[n], key)
  {
  }

  /** From turn `i` on, with the call at turn `n`, no more calls are allowed than the
    * burst and what the rate brings in. */
  ghost predicate Grants(lim: Limiter, tr: Trace, key: string, i: int, n: int)
    requires 0 <= i < |tr.turns| && 0 <= n < |tr.turns|
  {
    |AllowedFrom(tr, key, i, n)| as real + 1.0 <= lim.burst + BroughtIn(lim.rate, tr.turns[i].event.now, tr.turns[n].event.now)
  }

  lemma {:induction false} GrantsIsLeft(lim: Limiter, tr: Trace, key: string, i: int, n: int)
    requires 0 <= i < |tr.turns| && 0 <= n < |tr.turns|
    ensures Grants(lim, tr, key, i, n) <==> LeftSince(lim, tr, key, i, n, tr.turns[n].event.now) >= 1.0
  {
    hide AllowedFrom, BroughtIn, Flow;
    FlowIs(lim.rate, tr.turns[i].event.now, tr.turns[n].event.now);
  }

  lemma {:induction false} GrantsItself(lim: Limiter, tr: Trace, key: string, n: int)
    requires 0 <= n < |tr.turns| && lim.burst >= 1.0
    ensures Grants(lim, tr, key, n, n)
  {
    NoneYet(tr, key, n);
  }

  /** A call is allowed if and only if every stretch from one of the key's calls to now
    * holds, with it, no more allowed calls than the burst and the rate grant. */
  lemma {:induction false} AllowedExactly(lim: Limiter, tr: Trace, start: real, key: string, n: nat)
    requires Undisturbed(lim, tr, start, key, n) && Calls(tr, key, n)
    ensures tr.turns[n].ok <==> forall i :: 0 <= i <= n && Calls(tr, key, i) ==> Grants(lim, tr, key, i, n)
  {
    hide Level, Turns, AllowedFrom, Allowed, LeftSince, Grants, Calls, Flow;
    CallIs(tr, key, n);
    var now := tr.turns[n].event.now;
    TurnIs(lim, tr, start, n);
    LevelExactly(lim, tr, start, key, n, now);
    IsAllowed(lim, tr.State(n), key, now, tr.turns[n].after, tr.turns[n].ok);
    forall i | 0 <= i < n
      ensures Grants(lim, tr, key, i, n) <==> LeftSince(lim, tr, key, i, n, now) >= 1.0
    {
      GrantsIsLeft(lim, tr, key, i, n);
    }
    GrantsItself(lim, tr, key, n);
  }

  lemma {:induction false} CallIs(tr: Trace, key: string, n: int)
    requires Calls(tr, key, n)
    ensures 0 <= n < |tr.turns| && tr.turns[n].event == Call(key, tr.turns[n].event.now)
  {
  }

  lemma {:induction false} IsAllowed(lim: Limiter, b: Buckets, key: string, now: real, b': Buckets, ok: bool)
    requires lim.rate > 0.0 && Allowed(lim, b, key, now, b', ok)
    ensures ok <==> Level(lim, b, key, now) >= 1.0
  {
    hide Level;
  }

  // ---- The bound, counted in turns ----

  /** The turns in which a call of another key dropped this key's bucket. */
  function Drops(tr: Trace, key: string, n: nat): set<int>
    requires n <= |tr.turns|
  {
    set i | 0 <= i < n && tr.turns[i].event.Call? && key in tr.State(i) && key !in tr.State(i + 1)
  }

  lemma {:induction false} CountsAgree(tr: Trace, key: string, n: nat)
    requires n <= |tr.turns|
    ensures AllowedCalls(tr, key, n) == |AllowedFrom(tr, key, 0, n)|
    ensures Evictions(tr, key, n) == |Drops(tr, key, n)|
  {
    if n == 0 {
      NoneYet(tr, key, 0);
      assert Drops(tr, key, 0) == {};
    } else {
      hide AllowedFrom, Drops, Evicts, Spends;
      CountsAgree(tr, key, n - 1);
      OneMoreAllowed(tr, key, 0, n - 1);
      OneMoreDrop(tr, key, n - 1);
    }
  }

  lemma {:induction false} OneMoreDrop(tr: Trace, key: string, n: nat)
    requires n < |tr.turns|
    ensures |Drops(tr, key, n + 1)| == |Drops(tr, key, n)| + if Evicts(tr.State(n), tr.turns[n], key) then 1 else 0
  {
    assert Drops(tr, key, n + 1) == Drops(tr, key, n) + if Evicts(tr.State(n), tr.turns[n], key) then {n as int} else {};
  }

  /** The allowed calls of a key at the first `n` workers, as pairs of worker and turn. */
  function AllowedAt(traces: seq<Trace>, key: string, n: nat): set<(int, int)>
    requires n <= |traces|
  {
    set w, i | 0 <= w < n && i in AllowedFrom(traces[w], key, 0, |traces[w].turns|) :: (w, i)
  }

  function DropsAt(traces: seq<Trace>, key: string, n: nat): set<(int, int)>
    requires n <= |traces|
  {
    set w, i | 0 <= w < n && i in Drops(traces[w], key, |traces[w].turns|) :: (w, i)
  }

  function Tag<T>(w: int, s: set<T>): set<(int, T)> {
    set x | x in s :: (w, x)
  }

  lemma {:induction false} InTag(w: int, s: set<int>)
    ensures forall v, x :: (v, x) in Tag(w, s) <==> v == w && x in s
  {
  }

  lemma {:induction false} Tagged<T>(w: int, s: set<T>)
    ensures |Tag(w, s)| == |s|
  {
    if s != {} {
      var x :| x in s;
      Tagged(w, s - {x});
      assert Tag(w, s) == Tag(w, s - {x}) + {(w, x)};
    }
  }

  lemma {:induction false} OneMoreWorker(traces: seq<Trace>, key: string, n: nat)
    requires n < |traces|
    ensures var tr := traces[n];
            && TotalAllowed(traces[..n + 1], key) == TotalAllowed(traces[..n], key) + AllowedCalls(tr, key, |tr.turns|)
            && TotalEvictions(traces[..n + 1], key) == TotalEvictions(traces[..n], key) + Evictions(tr, key, |tr.turns|)
  {
    hide AllowedCalls, Evictions;
    assert traces[..n + 1][..n] == traces[..n] && traces[..n + 1][n] == traces[n];
  }

  lemma {:induction false} OneMoreTag(traces: seq<Trace>, key: string, n: nat)
    requires n < |traces|
    ensures var tr := traces[n];
            && |AllowedAt(traces, key, n + 1)| == |AllowedAt(traces, key, n)| + |AllowedFrom(tr, key, 0, |tr.turns|)|
            && |DropsAt(traces, key, n + 1)| == |DropsAt(traces, key, n)| + |Drops(tr, key, |tr.turns|)|
  {
    hide Drops, AllowedFrom;
    var tr := traces[n];
    var own, drops := AllowedFrom(tr, key, 0, |tr.turns|), Drops(tr, key, |tr.turns|);
    Tagged(n, own);
    Tagged(n, drops);
    InTag(n, own);
    InTag(n, drops);
    forall p: (int, int)
      ensures p in AllowedAt(traces, key, n + 1) <==> p in AllowedAt(traces, key, n) + Tag(n, own)
      ensures p in DropsAt(traces, key, n + 1) <==> p in DropsAt(traces, key, n) + Tag(n, drops)
    {
      var (w, i) := p;
      assert (w, i) in Tag(n, own) <==> w == n && i in own;
      assert (w, i) in Tag(n, drops) <==> w == n && i in drops;
    }
    assert AllowedAt(traces, key, n + 1) == AllowedAt(traces, key, n) + Tag(n, own);
    assert AllowedAt(traces, key, n) !! Tag(n, own);
    assert DropsAt(traces, key, n + 1) == DropsAt(traces, key, n) + Tag(n, drops);
    assert DropsAt(traces, key, n) !! Tag(n, drops);
  }

  lemma {:induction false} PairsAgree(traces: seq<Trace>, key: string, n: nat)
    requires n <= |traces|
    ensures TotalAllowed(traces[..n], key) == |AllowedAt(traces, key, n)|
    ensures TotalEvictions(traces[..n], key) == |DropsAt(traces, key, n)|
  {
    if n > 0 {
      PairsAgree(traces, key, n - 1);
      OneMoreWorker(traces, key, n - 1);
      OneMoreTag(traces, key, n - 1);
      CountsAgree(traces[n - 1], key, |traces[n - 1].turns|);
    }
  }

  /** The bound of all workers together, turn by turn. */
  lemma {:induction false} WorkersAtMost(rate: real, burst: int, maxKeys: int, workers: nat, traces: seq<Trace>,
                                         start: real, end: real, key: string)
    requires rate > 0.0 && |traces| == workers > 0
    requires forall i :: 0 <= i < workers ==> RunsUntil(Make(rate, burst, maxKeys, workers), traces[i], start, end)
    ensures var own := if burst > 0 then burst as real / workers as real else rate / workers as real;
            var share := if own >= 1.0 then own else 1.0;
            |AllowedAt(traces, key, workers)| as real <=
            (workers + |DropsAt(traces, key, workers)|) as real * share + (end - start) * rate
  {
    hide AllowedAt, DropsAt, TotalAllowed, TotalEvictions, RunsUntil, Make;
    assert traces[..workers] == traces;
    PairsAgree(traces, key, workers);
    WorkersTogether(rate, burst, maxKeys, workers, traces, start, end, key);
  }
}
