// Per-client token buckets (engine/ratelimit.py), over exact arithmetic.

module RateLimiters {
  import opened Sets

  /** Tokens left, and when the bucket was last touched. */
  type Bucket = (real, real)

  type Buckets = map<string, Bucket>

  datatype Limiter = Limiter(rate: real, burst: real, maxKeys: int)

  function Max(a: real, b: real): real {
    if a >= b then a else b
  }

  function Min(a: real, b: real): real {
    if a <= b then a else b
  }

  /** The constructor: rate and burst are split over the workers. */
  function Make(rate: real, burst: int, maxKeys: int, workers: int): (lim: Limiter)
    ensures lim.burst >= 1.0 && (rate > 0.0 <==> lim.rate > 0.0)
  {
    var w := if workers < 1 then 1.0 else workers as real;
    var r := if rate > 0.0 then rate / w else rate;
    Limiter(r, Max(1.0, if burst > 0 then burst as real / w else Max(1.0, r)), maxKeys)
  }

  /** The tokens that flow in during `dt` seconds. */
  function Flow(rate: real, dt: real): real {
    dt * rate
  }

  /** What a key may spend at time `t`. */
  function Level(lim: Limiter, b: Buckets, key: string, t: real): real {
    if key in b then Min(lim.burst, b[key].0 + Flow(lim.rate, t - b[key].1)) else lim.burst
  }

  // ---- The operations ----

  function TrimSize(n: nat): nat {
    if n < 4 then 1 else n / 4
  }

  /** A quarter of the buckets is gone, and none of them was fresher than any left. */
  ghost predicate Trimmed(b: Buckets, b': Buckets) {
    && b'.Keys <= b.Keys && (forall k :: k in b' ==> b'[k] == b[k])
    && |b.Keys - b'.Keys| == (if |b| < TrimSize(|b|) then |b| else TrimSize(|b|))
    && forall d, k :: d in b && d !in b' && k in b' ==> b[d].1 <= b[k].1
  }

  /** Room for `key` was made if it was needed. */
  ghost predicate Roomy(lim: Limiter, b: Buckets, key: string, mid: Buckets) {
    if key in b || |b| < lim.maxKeys then mid == b else Trimmed(b, mid)
  }

  ghost predicate Allowed(lim: Limiter, b: Buckets, key: string, now: real, b': Buckets, ok: bool) {
    if lim.rate <= 0.0 then ok && b' == b
    else
      var tokens := Level(lim, b, key, now);
      && ok == (tokens >= 1.0)
      && exists mid :: Roomy(lim, b, key, mid) && b' == mid[key := (if ok then tokens - 1.0 else tokens, now)]
  }

  function Collected(b: Buckets, now: real, idle: real): Buckets {
    map k | k in b && now - b[k].1 <= idle :: b[k]
  }

  class RateLimiter {
    const lim: Limiter
    var buckets: Buckets

    constructor (rate: real, burst: int, maxKeys: int, workers: int)
      ensures lim == Make(rate, burst, maxKeys, workers) && buckets == map[]
    {
      lim, buckets := Make(rate, burst, maxKeys, workers), map[];
    }

    /** `allow`. */
    method Allow(key: string, now: real) returns (ok: bool)
      modifies this
      ensures Allowed(lim, old(buckets), key, now, buckets, ok)
      ensures |old(buckets)| <= Capacity(lim.maxKeys) ==> |buckets| <= Capacity(lim.maxKeys)
    {
      hide Trimmed, Flow, Level, Capacity, Roomy, Min;
      if lim.rate <= 0.0 {
        return true;
      }
      hide Allowed;
      var (tokens, last) := if key in buckets then buckets[key] else (lim.burst, now);
      tokens := Min(lim.burst, tokens + Flow(lim.rate, now - last));
      LevelIs(lim, buckets, key, now);
      ok := tokens >= 1.0;
      ghost var before := buckets;
      if key !in buckets && |buckets| >= lim.maxKeys {
        Trim(now);
      }
      ghost var mid := buckets;
      CallIsAllowed(lim, before, key, now, mid, ok);
      buckets := buckets[key := (if ok then tokens - 1.0 else tokens, now)];
    }

    /** `_trim`: the least recently seen quarter of the table, at least one bucket. */
    method Trim(now: real)
      modifies this
      ensures Trimmed(old(buckets), buckets)
    {
      hide Dropped;
      ghost var all := buckets;
      var n := TrimSize(|buckets|);
      var i := 0;
      NothingDropped(all);
      while i < n && buckets != map[]
        invariant i <= n && Dropped(all, buckets, i)
      {
        var stalest := Stalest(buckets);
        OneMoreDropped(all, buckets, i, stalest);
        buckets := buckets - {stalest};
        i := i + 1;
      }
      DroppedIsTrimmed(all, buckets, i);
    }

    /** The first bucket of the table sorted by when it was last seen. */
    method Stalest(b: Buckets) returns (key: string)
      requires b != map[]
      ensures key in b && forall k :: k in b ==> b[key].1 <= b[k].1
    {
      var todo := b.Keys;
      assert todo != {} by {
        var k :| k in b;
      }
      key :| key in todo;
      todo := todo - {key};
      while todo != {}
        invariant key in b && todo <= b.Keys && forall k :: k in b && k !in todo ==> b[key].1 <= b[k].1
        decreases todo
      {
        var k :| k in todo;
        if b[k].1 < b[key].1 {
          key := k;
        }
        todo := todo - {k};
      }
    }

    /** `gc`. */
    method Gc(now: real, idle: real)
      modifies this
      ensures buckets == Collected(old(buckets), now, idle)
    {
      ghost var all := buckets;
      var stale := set k | k in buckets && now - buckets[k].1 > idle;
      while stale != {}
        invariant stale <= all.Keys && forall k :: k in stale ==> now - all[k].1 > idle
        invariant buckets == map k | k in all && (now - all[k].1 <= idle || k in stale) :: all[k]
        decreases stale
      {
        var k :| k in stale;
        stale := stale - {k};
        buckets := buckets - {k};
      }
    }
  }

  /** The `i` least recently seen buckets of `all` are gone. */
  ghost predicate Dropped(all: Buckets, b: Buckets, i: nat) {
    && b.Keys <= all.Keys && |all.Keys - b.Keys| == i && i <= |all|
    && (forall k :: k in b ==> b[k] == all[k])
    && forall d, k :: d in all && d !in b && k in b ==> all[d].1 <= all[k].1
  }

  lemma {:induction false} NothingDropped(all: Buckets)
    ensures Dropped(all, all, 0)
  {
  }

  lemma {:induction false} OneMoreDropped(all: Buckets, b: Buckets, i: nat, key: string)
    requires Dropped(all, b, i) && key in b && forall k :: k in b ==> b[key].1 <= b[k].1
    ensures Dropped(all, b - {key}, i + 1)
  {
    assert all.Keys - (b - {key}).Keys == (all.Keys - b.Keys) + {key};
    SubsetSize(all.Keys - (b - {key}).Keys, all.Keys);
  }

  lemma {:induction false} DroppedIsTrimmed(all: Buckets, b: Buckets, i: nat)
    requires Dropped(all, b, i) && i <= TrimSize(|all|) && (i == TrimSize(|all|) || b == map[])
    ensures Trimmed(all, b)
  {
    if b == map[] {
      assert all.Keys - b.Keys == all.Keys;
    }
  }

  lemma {:induction false} CallIsAllowed(lim: Limiter, b: Buckets, key: string, now: real, mid: Buckets, ok: bool)
    requires lim.rate > 0.0 && ok == (Level(lim, b, key, now) >= 1.0)
    requires if key in b || |b| < lim.maxKeys then mid == b else Trimmed(b, mid)
    ensures var tokens := Level(lim, b, key, now);
            var b' := mid[key := (if ok then tokens - 1.0 else tokens, now)];
            Allowed(lim, b, key, now, b', ok) && (|b| <= Capacity(lim.maxKeys) ==> |b'| <= Capacity(lim.maxKeys))
  {
    hide Trimmed, Level, Capacity;
    var tokens := Level(lim, b, key, now);
    assert Roomy(lim, b, key, mid);
    InsertFits(lim, b, key, mid, (if ok then tokens - 1.0 else tokens, now));
  }

  lemma {:induction false} InsertFits(lim: Limiter, b: Buckets, key: string, mid: Buckets, bucket: Bucket)
    requires Roomy(lim, b, key, mid)
    ensures |b| <= Capacity(lim.maxKeys) ==> |mid[key := bucket]| <= Capacity(lim.maxKeys)
  {
    hide Roomy, Capacity;
    if |b| <= Capacity(lim.maxKeys) {
      RoomIsKept(lim, b, key, mid);
      assert mid[key := bucket].Keys == mid.Keys + {key};
    }
  }

  lemma {:induction false} LevelIs(lim: Limiter, b: Buckets, key: string, now: real)
    ensures Level(lim, b, key, now) ==
            var bucket := if key in b then b[key] else (lim.burst, now);
            Min(lim.burst, bucket.0 + Flow(lim.rate, now - bucket.1))
  {
    FlowLaws(lim.rate, 0.0, 0.0);
  }

  /** The table never holds more buckets than this. */
  function Capacity(maxKeys: int): nat {
    if maxKeys < 1 then 1 else maxKeys
  }

  lemma {:induction false} RoomIsKept(lim: Limiter, b: Buckets, key: string, mid: Buckets)
    requires Roomy(lim, b, key, mid) && |b| <= Capacity(lim.maxKeys)
    ensures |mid.Keys + {key}| <= Capacity(lim.maxKeys)
  {
    if key in b {
      assert mid.Keys + {key} == b.Keys;
    } else if |b| >= lim.maxKeys {
      TrimMakesRoom(b, mid);
    }
  }

  lemma {:induction false} TrimMakesRoom(b: Buckets, mid: Buckets)
    requires Trimmed(b, mid)
    ensures if |b| == 0 then |mid| == 0 else |mid| < |b|
  {
    var gone := b.Keys - mid.Keys;
    assert b.Keys == mid.Keys + gone && mid.Keys !! gone;
    assert |mid.Keys + gone| == |mid.Keys| + |gone|;
  }

  // ---- Arithmetic ----

  lemma {:induction false} FlowLaws(rate: real, a: real, b: real)
    ensures Flow(rate, 0.0) == 0.0
    ensures Flow(rate, a) + Flow(rate, b) == Flow(rate, a + b)
    ensures rate > 0.0 && a <= b ==> Flow(rate, a) <= Flow(rate, b)
  {
    if rate > 0.0 && a <= b {
      assert (b - a) * rate >= 0.0;
    }
  }

  /** `x`, `n` times. */
  function Times(n: nat, x: real): real {
    if n == 0 then 0.0 else Times(n - 1, x) + x
  }

  lemma {:induction false} TimesIsProduct(n: nat, x: real)
    ensures Times(n, x) == n as real * x
  {
    if n > 0 {
      TimesIsProduct(n - 1, x);
      assert n as real * x == (n - 1) as real * x + x;
    }
  }

  // ---- Runs ----

  datatype Event = Call(key: string, now: real) | Gc(now: real, idle: real)

  ghost predicate Step(lim: Limiter, b: Buckets, e: Event, b': Buckets, ok: bool) {
    match e
    case Call(key, now) => Allowed(lim, b, key, now, b', ok)
    case Gc(now, idle) => b' == Collected(b, now, idle) && !ok
  }

  datatype Turn = Turn(event: Event, ok: bool, after: Buckets)

  /** What one limiter did. */
  datatype Trace = Trace(first: Buckets, turns: seq<Turn>) {
    function State(n: nat): Buckets
      requires n <= |turns|
    {
      if n == 0 then first else turns[n - 1].after
    }

    function Clock(start: real, n: nat): real
      requires n <= |turns|
    {
      if n == 0 then start else turns[n - 1].event.now
    }
  }

  /** Buckets hold between nothing and the burst, and were last touched in the past. */
  ghost predicate Sound(lim: Limiter, b: Buckets, clock: real) {
    forall k :: k in b ==> 0.0 <= b[k].0 <= lim.burst && b[k].1 <= clock
  }

  /** The limiter limits, and garbage collection drops only buckets that have been
    * idle long enough to be full again. */
  ghost predicate Turns(lim: Limiter, tr: Trace, start: real, n: nat)
    requires n < |tr.turns|
  {
    var t := tr.turns[n];
    && tr.Clock(start, n) <= t.event.now && Step(lim, tr.State(n), t.event, t.after, t.ok)
    && (t.event.Gc? ==> lim.burst <= Flow(lim.rate, t.event.idle))
  }

  /** A run from time `start` on under a clock that does not run backwards. */
  ghost predicate IsRun(lim: Limiter, tr: Trace, start: real) {
    && lim.rate > 0.0 && lim.burst >= 1.0 && Sound(lim, tr.first, start)
    && forall n :: 0 <= n < |tr.turns| ==> Turns(lim, tr, start, n)
  }

  /** How many of the first `n` turns were allowed calls of `key`. */
  function AllowedCalls(tr: Trace, key: string, n: nat): nat
    requires n <= |tr.turns|
  {
    if n == 0 then 0 else AllowedCalls(tr, key, n - 1) + if Spends(tr.turns[n - 1], key) then 1 else 0
  }

  predicate Spends(t: Turn, key: string) {
    t.event.Call? && t.event.key == key && t.ok
  }

  /** How many of them made room by dropping the bucket of `key`. */
  function Evictions(tr: Trace, key: string, n: nat): nat
    requires n <= |tr.turns|
  {
    if n == 0 then 0
    else Evictions(tr, key, n - 1) + if Evicts(tr.State(n - 1), tr.turns[n - 1], key) then 1 else 0
  }

  predicate Evicts(b: Buckets, t: Turn, key: string) {
    t.event.Call? && key in b && key !in t.after
  }

  lemma {:induction false} LevelGrows(lim: Limiter, b: Buckets, key: string, t: real, u: real)
    requires lim.rate > 0.0 && t <= u
    ensures Level(lim, b, key, u) <= Level(lim, b, key, t) + Flow(lim.rate, u - t)
  {
    hide Flow;
    FlowLaws(lim.rate, 0.0, u - t);
    if key in b {
      FlowLaws(lim.rate, t - b[key].1, u - t);
    }
  }

  lemma {:induction false} LevelInRange(lim: Limiter, b: Buckets, key: string, t: real, clock: real)
    requires lim.rate > 0.0 && lim.burst >= 1.0 && Sound(lim, b, clock) && clock <= t
    ensures 0.0 <= Level(lim, b, key, t) <= lim.burst
  {
    hide Flow;
    if key in b {
      FlowLaws(lim.rate, 0.0, t - b[key].1);
    }
  }

  lemma {:induction false} RoomySubset(lim: Limiter, b: Buckets, key: string, mid: Buckets)
    requires Roomy(lim, b, key, mid)
    ensures forall k :: k in mid ==> k in b && mid[k] == b[k]
  {
  }

  /** A call takes one token when it is allowed, and none otherwise. */
  lemma {:induction false} CallTakesToken(lim: Limiter, b: Buckets, key: string, now: real, b': Buckets, ok: bool, clock: real)
    requires lim.rate > 0.0 && lim.burst >= 1.0 && Sound(lim, b, clock) && clock <= now
    requires Allowed(lim, b, key, now, b', ok)
    ensures Level(lim, b', key, now) == Level(lim, b, key, now) - if ok then 1.0 else 0.0
    ensures Sound(lim, b', now) && key in b'
    ensures forall k :: k != key && k in b' ==> k in b && b'[k] == b[k]
  {
    hide Flow, Level, Trimmed, Roomy;
    LevelInRange(lim, b, key, now, clock);
    var tokens := Level(lim, b, key, now);
    var mid :| Roomy(lim, b, key, mid) && b' == mid[key := (if ok then tokens - 1.0 else tokens, now)];
    RoomySubset(lim, b, key, mid);
    assert b'[key] == (if ok then tokens - 1.0 else tokens, now);
    FreshLevel(lim, b', key, now);
  }

  lemma {:induction false} FreshLevel(lim: Limiter, b: Buckets, key: string, now: real)
    requires key in b && b[key].1 == now && b[key].0 <= lim.burst
    ensures Level(lim, b, key, now) == b[key].0
  {
    FlowLaws(lim.rate, 0.0, 0.0);
  }

  lemma {:induction false} SameBucketSameLevel(lim: Limiter, a: Buckets, b: Buckets, key: string, t: real)
    requires if key in a then key in b && a[key] == b[key] else key !in b
    ensures Level(lim, a, key, t) == Level(lim, b, key, t)
  {
  }

  /** Collecting a bucket that has been idle long enough changes no level. */
  lemma {:induction false} GcKeepsLevels(lim: Limiter, b: Buckets, now: real, idle: real, clock: real, key: string, t: real)
    requires lim.rate > 0.0 && Sound(lim, b, clock) && clock <= now <= t && lim.burst <= Flow(lim.rate, idle)
    ensures Level(lim, Collected(b, now, idle), key, t) == Level(lim, b, key, t)
    ensures Sound(lim, Collected(b, now, idle), now)
  {
    hide Flow;
    if key in b {
      FlowLaws(lim.rate, idle, t - b[key].1);
    }
  }

  /** One turn, seen from one key: a token spent is a token less; only an eviction
    * can refill the bucket. */
  lemma {:induction false} OneTurn(lim: Limiter, b: Buckets, t: Turn, key: string, clock: real)
    requires lim.rate > 0.0 && lim.burst >= 1.0 && Sound(lim, b, clock) && clock <= t.event.now
    requires Step(lim, b, t.event, t.after, t.ok) && (t.event.Gc? ==> lim.burst <= Flow(lim.rate, t.event.idle))
    ensures Sound(lim, t.after, t.event.now)
    ensures (if Spends(t, key) then 1.0 else 0.0) + Level(lim, t.after, key, t.event.now) <=
            Level(lim, b, key, t.event.now) + if Evicts(b, t, key) then lim.burst else 0.0
  {
    hide Flow, Level, Allowed, Collected, Sound;
    var now := t.event.now;
    if t.event.Gc? {
      GcKeepsLevels(lim, b, now, t.event.idle, clock, key, now);
    } else {
      CallTakesToken(lim, b, t.event.key, now, t.after, t.ok, clock);
      LevelInRange(lim, b, key, now, clock);
      LevelInRange(lim, t.after, key, now, now);
      if key != t.event.key && !(key in b && key !in t.after) {
        SameBucketSameLevel(lim, b, t.after, key, now);
      }
    }
  }

  /** What was spent, and what is left, was there at the start or has flowed in
    * since, but for one burst per eviction. */
  lemma {:induction false} TokensAreConserved(lim: Limiter, tr: Trace, start: real, key: string, n: nat)
    requires IsRun(lim, tr, start) && n <= |tr.turns|
    ensures Sound(lim, tr.State(n), tr.Clock(start, n)) && start <= tr.Clock(start, n)
    ensures AllowedCalls(tr, key, n) as real + Level(lim, tr.State(n), key, tr.Clock(start, n)) <=
            Level(lim, tr.first, key, start) + Flow(lim.rate, tr.Clock(start, n) - start)
            + Times(Evictions(tr, key, n), lim.burst)
    decreases n
  {
    hide Flow, Level, Step, Sound, Evicts, Spends;
    if n == 0 {
      FlowLaws(lim.rate, 0.0, 0.0);
    } else {
      TokensAreConserved(lim, tr, start, key, n - 1);
      assert Turns(lim, tr, start, n - 1);
      var then', now := tr.Clock(start, n - 1), tr.Clock(start, n);
      OneTurn(lim, tr.State(n - 1), tr.turns[n - 1], key, then');
      LevelGrows(lim, tr.State(n - 1), key, then', now);
      FlowLaws(lim.rate, then' - start, now - then');
    }
  }

  /** The bound: in any stretch of time a key is allowed at most the burst and what
    * the rate brings in, and one more burst for each time it was evicted. */
  lemma {:induction false} AllowedAtMost(lim: Limiter, tr: Trace, start: real, end: real, key: string)
    requires IsRun(lim, tr, start) && tr.Clock(start, |tr.turns|) <= end
    ensures AllowedCalls(tr, key, |tr.turns|) as real <=
            (1 + Evictions(tr, key, |tr.turns|)) as real * lim.burst + (end - start) * lim.rate
  {
    hide Level;
    var n := |tr.turns|;
    TokensAreConserved(lim, tr, start, key, n);
    LevelInRange(lim, tr.State(n), key, tr.Clock(start, n), tr.Clock(start, n));
    LevelInRange(lim, tr.first, key, start, start);
    FlowLaws(lim.rate, tr.Clock(start, n) - start, end - start);
    TimesIsProduct(1 + Evictions(tr, key, n), lim.burst);
  }

  /** What the rate brings in from one time to another. */
  function BroughtIn(rate: real, from: real, to: real): real {
    (to - from) * rate
  }

  lemma {:induction false} FlowIs(rate: real, from: real, to: real)
    ensures Flow(rate, to - from) == BroughtIn(rate, from, to)
  {
  }

  /** Nobody who keeps to the rate is refused: a key that has waited long enough for
    * one token since it was last seen is allowed. */
  lemma {:induction false} PacedIsAllowed(lim: Limiter, b: Buckets, key: string, now: real, b': Buckets, ok: bool, clock: real)
    requires lim.rate > 0.0 && lim.burst >= 1.0 && Sound(lim, b, clock) && clock <= now
    requires Allowed(lim, b, key, now, b', ok)
    requires key in b ==> BroughtIn(lim.rate, b[key].1, now) >= 1.0
    ensures ok
  {
    hide Flow, BroughtIn;
    if key in b {
      FlowIs(lim.rate, b[key].1, now);
    }
  }

  // ---- Workers ----

  function TotalAllowed(traces: seq<Trace>, key: string): nat {
    if traces == [] then 0
    else
      var last := |traces| - 1;
      TotalAllowed(traces[..last], key) + AllowedCalls(traces[last], key, |traces[last].turns|)
  }

  function TotalEvictions(traces: seq<Trace>, key: string): nat {
    if traces == [] then 0
    else
      var last := |traces| - 1;
      TotalEvictions(traces[..last], key) + Evictions(traces[last], key, |traces[last].turns|)
  }

  ghost predicate RunsUntil(lim: Limiter, tr: Trace, start: real, end: real) {
    IsRun(lim, tr, start) && tr.Clock(start, |tr.turns|) <= end
  }

  lemma {:induction false} TimesAdds(m: nat, n: nat, x: real)
    ensures Times(m + n, x) == Times(m, x) + Times(n, x)
    decreases n
  {
    if n > 0 {
      TimesAdds(m, n - 1, x);
    }
  }

  lemma {:induction false} OneAtMost(lim: Limiter, tr: Trace, start: real, end: real, key: string)
    requires RunsUntil(lim, tr, start, end)
    ensures AllowedCalls(tr, key, |tr.turns|) as real <=
            Times(1 + Evictions(tr, key, |tr.turns|), lim.burst) + Flow(lim.rate, end - start)
  {
    AllowedAtMost(lim, tr, start, end, key);
    hide AllowedCalls, IsRun, Evictions, Times;
    TimesIsProduct(1 + Evictions(tr, key, |tr.turns|), lim.burst);
  }

  lemma {:induction false} TotalAtMost(lim: Limiter, traces: seq<Trace>, start: real, end: real, key: string)
    requires forall i :: 0 <= i < |traces| ==> RunsUntil(lim, traces[i], start, end)
    ensures TotalAllowed(traces, key) as real <=
            Times(|traces| + TotalEvictions(traces, key), lim.burst) + Times(|traces|, Flow(lim.rate, end - start))
  {
    hide RunsUntil, AllowedCalls, Evictions, Flow;
    if traces != [] {
      var last := |traces| - 1;
      var e, rest := Evictions(traces[last], key, |traces[last].turns|), last + TotalEvictions(traces[..last], key);
      OneAtMost(lim, traces[last], start, end, key);
      TotalAtMost(lim, traces[..last], start, end, key);
      TimesAdds(rest, 1 + e, lim.burst);
      assert |traces| + TotalEvictions(traces, key) == rest + (1 + e);
    }
  }

  function Share(rate: real, burst: int, workers: nat): real
    requires workers > 0
  {
    Max(1.0, if burst > 0 then burst as real / workers as real else Max(1.0, rate / workers as real))
  }

  /** All workers together keep the figures the operator typed: their limiters
    * split rate and burst, no worker's burst is less than one, and each eviction of
    * the key costs one more of these. */
  lemma {:induction false} WorkersTogether(rate: real, burst: int, maxKeys: int, workers: nat, traces: seq<Trace>,
                                           start: real, end: real, key: string)
    requires rate > 0.0 && |traces| == workers > 0
    requires forall i :: 0 <= i < workers ==> RunsUntil(Make(rate, burst, maxKeys, workers), traces[i], start, end)
    ensures var own := if burst > 0 then burst as real / workers as real else rate / workers as real;
            var share := if own >= 1.0 then own else 1.0;
            TotalAllowed(traces, key) as real <= (workers + TotalEvictions(traces, key)) as real * share + (end - start) * rate
  {
    hide Make, RunsUntil, TotalAllowed, TotalEvictions, Times, Share, Flow;
    InFigures(rate, burst, workers, workers + TotalEvictions(traces, key), end - start);
    var lim := Make(rate, burst, maxKeys, workers);
    MakeSplits(rate, burst, maxKeys, workers);
    TotalAtMost(lim, traces, start, end, key);
    TimesIsProduct(workers, Flow(lim.rate, end - start));
    SplitEvenly(rate, workers as real, end - start);
  }

  lemma {:induction false} InFigures(rate: real, burst: int, workers: nat, n: nat, dt: real)
    requires rate > 0.0 && workers > 0
    ensures var own := if burst > 0 then burst as real / workers as real else rate / workers as real;
            Times(n, Share(rate, burst, workers)) + Flow(rate, dt) == n as real * (if own >= 1.0 then own else 1.0) + dt * rate
  {
    TimesIsProduct(n, Share(rate, burst, workers));
  }

  lemma {:induction false} MakeSplits(rate: real, burst: int, maxKeys: int, workers: nat)
    requires rate > 0.0 && workers > 0
    ensures var lim := Make(rate, burst, maxKeys, workers);
            lim.rate == rate / workers as real && lim.burst == Share(rate, burst, workers)
  {
  }

  lemma {:induction false} SplitEvenly(rate: real, w: real, dt: real)
    requires w > 0.0
    ensures w * Flow(rate / w, dt) == Flow(rate, dt)
  {
    var r := rate / w;
    assert w * r == rate;
    assert w * (dt * r) == dt * (w * r);
  }

  // ---- Garbage collection ----

  /** The same levels from `clock` on, with fewer buckets. */
  ghost predicate SameLevels(lim: Limiter, a: Buckets, b: Buckets, clock: real) {
    b.Keys <= a.Keys && forall k, t :: t >= clock ==> Level(lim, a, k, t) == Level(lim, b, k, t)
  }

  /** No turn of the run finds the table full. */
  ghost predicate NeverFull(lim: Limiter, tr: Trace) {
    forall n: nat :: n < |tr.turns| ==> |tr.State(n)| < lim.maxKeys
  }

  /** With room in the table, a call just writes its own bucket. */
  lemma {:induction false} CallWithRoom(lim: Limiter, b: Buckets, key: string, now: real, b': Buckets, ok: bool)
    requires lim.rate > 0.0 && |b| < lim.maxKeys && Allowed(lim, b, key, now, b', ok)
    ensures ok == (Level(lim, b, key, now) >= 1.0)
    ensures b' == b[key := (if ok then Level(lim, b, key, now) - 1.0 else Level(lim, b, key, now), now)]
  {
    hide Level;
  }

  lemma {:induction false} SameDecision(lim: Limiter, a: Buckets, b: Buckets, key: string, now: real, clock: real,
                                        a': Buckets, b': Buckets, okA: bool, okB: bool)
    requires lim.rate > 0.0 && SameLevels(lim, a, b, clock) && clock <= now && |a| < lim.maxKeys
    requires Allowed(lim, a, key, now, a', okA) && Allowed(lim, b, key, now, b', okB)
    ensures okA == okB && SameLevels(lim, a', b', now)
  {
    hide Level, Allowed;
    SubsetSize(b.Keys, a.Keys);
    CallWithRoom(lim, a, key, now, a', okA);
    CallWithRoom(lim, b, key, now, b', okB);
    assert Level(lim, a, key, now) == Level(lim, b, key, now);
    forall x, t | t >= now
      ensures Level(lim, a', x, t) == Level(lim, b', x, t)
    {
      if x == key {
        SameBucketSameLevel(lim, a', b', x, t);
      } else {
        SameBucketSameLevel(lim, a', a, x, t);
        SameBucketSameLevel(lim, b', b, x, t);
        assert Level(lim, a, x, t) == Level(lim, b, x, t);
      }
    }
  }

  /** The calls among the first `n` turns, and their answers. */
  function CallsOf(tr: Trace, n: nat): seq<Event>
    requires n <= |tr.turns|
  {
    if n == 0 then []
    else CallsOf(tr, n - 1) + if tr.turns[n - 1].event.Call? then [tr.turns[n - 1].event] else []
  }

  function AnswersOf(tr: Trace, n: nat): (oks: seq<bool>)
    requires n <= |tr.turns|
    ensures |oks| == |CallsOf(tr, n)|
  {
    if n == 0 then []
    else AnswersOf(tr, n - 1) + if tr.turns[n - 1].event.Call? then [tr.turns[n - 1].ok] else []
  }

  lemma {:induction false} OneCollection(lim: Limiter, a: Buckets, b: Buckets, clock: real, now: real, idle: real)
    requires lim.rate > 0.0 && Sound(lim, b, clock) && clock <= now && lim.burst <= Flow(lim.rate, idle)
    requires SameLevels(lim, a, b, clock)
    ensures SameLevels(lim, a, Collected(b, now, idle), now)
  {
    hide Level, Flow, Sound;
    forall k, t | t >= now
      ensures Level(lim, a, k, t) == Level(lim, Collected(b, now, idle), k, t)
    {
      GcKeepsLevels(lim, b, now, idle, clock, k, t);
      assert Level(lim, a, k, t) == Level(lim, b, k, t);
    }
  }

  lemma {:induction false} StaysSound(lim: Limiter, tr: Trace, start: real, n: nat)
    requires IsRun(lim, tr, start) && n <= |tr.turns|
    ensures Sound(lim, tr.State(n), tr.Clock(start, n)) && start <= tr.Clock(start, n)
    decreases n
  {
    hide Sound, Step, Flow;
    if n > 0 {
      StaysSound(lim, tr, start, n - 1);
      assert Turns(lim, tr, start, n - 1);
      OneTurn(lim, tr.State(n - 1), tr.turns[n - 1], "", tr.Clock(start, n - 1));
    }
  }

  /** Garbage collection changes no decision: a run with collections anywhere in it
    * answers its calls as a run of the same calls without any, as long as that one
    * never finds the table full. */
  lemma {:induction false} GcChangesNoDecision(lim: Limiter, a: Trace, b: Trace, start: real, m: nat, n: nat)
    requires IsRun(lim, a, start) && IsRun(lim, b, start) && a.first == b.first && NeverFull(lim, a)
    requires forall i :: 0 <= i < |a.turns| ==> a.turns[i].event.Call?
    requires m <= |a.turns| && n <= |b.turns| && CallsOf(a, m) == CallsOf(b, n)
    ensures AnswersOf(a, m) == AnswersOf(b, n)
    ensures SameLevels(lim, a.State(m), b.State(n), b.Clock(start, n))
    decreases n
  {
    hide Level, Allowed, Flow, SameLevels, Sound, Turns, NeverFull;
    if n == 0 {
      OnlyCalls(a, m);
      AreSameLevels(lim, a.first, start);
    } else {
      var e := b.turns[n - 1].event;
      StaysSound(lim, b, start, n - 1);
      TurnIs(lim, b, start, n - 1);
      if e.Gc? {
        GcChangesNoDecision(lim, a, b, start, m, n - 1);
        OneCollection(lim, a.State(m), b.State(n - 1), b.Clock(start, n - 1), e.now, e.idle);
      } else {
        OnlyCalls(a, m);
        SameLast(CallsOf(a, m - 1), a.turns[m - 1].event, CallsOf(b, n - 1), e);
        GcChangesNoDecision(lim, a, b, start, m - 1, n - 1);
        TurnIs(lim, a, start, m - 1);
        HasRoom(lim, a, m - 1);
        SameDecision(lim, a.State(m - 1), b.State(n - 1), e.key, e.now, b.Clock(start, n - 1),
                     a.State(m), b.State(n), a.turns[m - 1].ok, b.turns[n - 1].ok);
      }
    }
  }

  lemma {:induction false} OnlyCalls(tr: Trace, n: nat)
    requires n <= |tr.turns| && forall i :: 0 <= i < |tr.turns| ==> tr.turns[i].event.Call?
    ensures |CallsOf(tr, n)| == n
  {
    if n > 0 {
      OnlyCalls(tr, n - 1);
    }
  }

  lemma {:induction false} SameLast(a: seq<Event>, x: Event, b: seq<Event>, y: Event)
    requires a + [x] == b + [y]
    ensures a == b && x == y
  {
    assert (a + [x])[|a|] == x && (b + [y])[|b|] == y;
    assert (a + [x])[..|a|] == a && (b + [y])[..|b|] == b;
  }

  lemma {:induction false} AreSameLevels(lim: Limiter, b: Buckets, clock: real)
    ensures SameLevels(lim, b, b, clock)
  {
  }

  lemma {:induction false} TurnIs(lim: Limiter, tr: Trace, start: real, n: nat)
    requires IsRun(lim, tr, start) && n < |tr.turns|
    ensures lim.rate > 0.0 && tr.Clock(start, n) <= tr.turns[n].event.now
    ensures Step(lim, tr.State(n), tr.turns[n].event, tr.turns[n].after, tr.turns[n].ok)
    ensures tr.turns[n].event.Gc? ==> lim.burst <= Flow(lim.rate, tr.turns[n].event.idle)
  {
    assert Turns(lim, tr, start, n);
  }

  lemma {:induction false} HasRoom(lim: Limiter, tr: Trace, n: nat)
    requires NeverFull(lim, tr) && n < |tr.turns|
    ensures |tr.State(n)| < lim.maxKeys
  {
  }

  // ---- A full table: collecting does change a decision ----

  const SOME: set<string> := {"a", "b", "c", "d", "e", "f"}

  /** Six spent buckets, and then a spent one seen earlier and a full one long idle. */
  function Spent(): Buckets {
    map k | k in SOME :: (0.0, 9.8)
  }

  function FullTable(): Buckets {
    Spent()["v" := (0.0, 9.5)]["i" := (1.0, 0.0)]
  }

  lemma {:induction false} TableSizes()
    ensures Spent().Keys == SOME && |Spent()| == 6 && "v" !in SOME && "i" !in SOME && "n" !in SOME
    ensures |Spent()["v" := (0.0, 9.5)]| == 7 && |FullTable()| == 8 && |Spent()["n" := (0.0, 10.0)]| == 7
  {
    var s := Spent();
    assert s.Keys == SOME;
    NewKey(s, "v", (0.0, 9.5));
    NewKey(s, "n", (0.0, 10.0));
    NewKey(s["v" := (0.0, 9.5)], "i", (1.0, 0.0));
  }

  lemma {:induction false} NewKey(b: Buckets, k: string, bucket: Bucket)
    requires k !in b
    ensures |b[k := bucket]| == |b| + 1
  {
    assert b[k := bucket].Keys == b.Keys + {k};
  }

  /** Room is made at the cost of the idle bucket and the one seen earlier. */
  lemma {:induction false} TrimDropsTwo()
    ensures Trimmed(FullTable(), Spent())
  {
    TableSizes();
    assert FullTable().Keys - Spent().Keys == {"i", "v"};
  }

  lemma {:induction false} CollectDropsIdle()
    ensures Collected(FullTable(), 10.0, 1.0) == Spent()["v" := (0.0, 9.5)]
  {
  }

  const EIGHT: Limiter := Limiter(1.0, 1.0, 8)

  function WithoutCollection(): Trace {
    var after := Spent()["n" := (0.0, 10.0)];
    Trace(FullTable(), [Turn(Call("n", 10.0), true, after), Turn(Call("v", 10.0), true, after["v" := (0.0, 10.0)])])
  }

  function WithCollection(): Trace {
    var kept := Spent()["v" := (0.0, 9.5)];
    var after := kept["n" := (0.0, 10.0)];
    Trace(FullTable(), [Turn(Gc(10.0, 1.0), false, kept), Turn(Call("n", 10.0), true, after),
                        Turn(Call("v", 10.0), false, after["v" := (0.5, 10.0)])])
  }

  lemma {:induction false} NewKeyIsAllowed(b: Buckets, key: string, mid: Buckets)
    requires key !in b && if |b| < 8 then mid == b else Trimmed(b, mid)
    ensures Allowed(EIGHT, b, key, 10.0, mid[key := (0.0, 10.0)], true)
  {
    hide Trimmed;
    CallIsAllowed(EIGHT, b, key, 10.0, mid, true);
  }

  lemma {:induction false} SpentIsRefused(b: Buckets, key: string)
    requires key in b && b[key] == (0.0, 9.5)
    ensures Allowed(EIGHT, b, key, 10.0, b[key := (0.5, 10.0)], false)
  {
    CallIsAllowed(EIGHT, b, key, 10.0, b, false);
  }

  lemma {:induction false} FullIsSound()
    ensures Sound(EIGHT, FullTable(), 10.0) && EIGHT.burst <= Flow(EIGHT.rate, 1.0)
  {
  }

  lemma {:induction false} RunWithout()
    ensures IsRun(EIGHT, WithoutCollection(), 10.0)
  {
    hide Spent, FullTable, Trimmed, Allowed, Flow, Sound;
    var tr, after := WithoutCollection(), Spent()["n" := (0.0, 10.0)];
    FullIsSound();
    TableSizes();
    TrimDropsTwo();
    NotInFull();
    NewKeyIsAllowed(FullTable(), "n", Spent());
    NewKeyIsAllowed(after, "v", after);
    assert Turns(EIGHT, tr, 10.0, 0) && Turns(EIGHT, tr, 10.0, 1);
  }

  lemma {:induction false} NotInFull()
    ensures "n" !in FullTable()
  {
    TableSizes();
  }

  lemma {:induction false} RunWith()
    ensures IsRun(EIGHT, WithCollection(), 10.0)
  {
    hide Spent, FullTable, Trimmed, Allowed, Flow, Sound, Collected;
    var tr, kept := WithCollection(), Spent()["v" := (0.0, 9.5)];
    FullIsSound();
    TableSizes();
    CollectDropsIdle();
    NewKeyIsAllowed(kept, "n", kept);
    SpentIsRefused(kept["n" := (0.0, 10.0)], "v");
    assert Turns(EIGHT, tr, 10.0, 0) && Turns(EIGHT, tr, 10.0, 1) && Turns(EIGHT, tr, 10.0, 2);
  }

  /** Eight buckets are the limit here. Without a collection a new key costs two of
    * them, and one had been spent: its key is allowed again. With a collection of the
    * idle one first, nothing has to go, and that key is refused. */
  lemma {:induction false} FullTableChangesDecision()
    ensures var a, b := WithoutCollection(), WithCollection();
            && IsRun(EIGHT, a, 10.0) && IsRun(EIGHT, b, 10.0) && a.first == b.first
            && CallsOf(a, 2) == CallsOf(b, 3) && AnswersOf(a, 2) == [true, true] && AnswersOf(b, 3) == [true, false]
  {
    hide Spent, FullTable, IsRun;
    var a, b := WithoutCollection(), WithCollection();
    RunWithout();
    RunWith();
    assert CallsOf(a, 1) == CallsOf(b, 2) == [Call("n", 10.0)] && AnswersOf(a, 1) == AnswersOf(b, 2) == [true];
  }
}
