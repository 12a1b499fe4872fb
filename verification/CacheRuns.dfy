// Several workers, each with its local store, over one shared memory: where the
// answers come from, over whole runs of put, get and full flush.

module CacheRuns {
  import opened Wrappers
  import opened Bytes
  import opened Caches
  import Shared = SharedMemory

  /** What the runs depend on: the configuration, the layout of the shared memory,
    * the key hash, the message codec and how a time is stored. */
  datatype Env = Env(cfg: Config, layout: Shared.Layout, hash: CacheKey -> nat,
                     toWire: Msg -> seq<byte>, parse: seq<byte> -> Option<Msg>,
                     write: real -> Shared.Stamp, read: Shared.Stamp -> real)

  /** An answer that some worker stored. The clock is read twice: at `at` for the
    * local entry and at `sharedAt`, later, for the shared one. */
  datatype PutEvent = PutEvent(key: CacheKey, msg: Msg, ttl: int, at: real, sharedAt: real) {
    /** When the answer ceases to be fresh anywhere. */
    function Deadline(): real {
      sharedAt + ttl as real
    }
  }

  /** `since[w]` is how many puts there had been when worker `w` last flushed,
    * `tableSince` when any worker did. */
  datatype State = State(workers: seq<Store>, table: seq<Option<Shared.Record>>, log: seq<PutEvent>,
                         since: seq<nat>, tableSince: nat)

  datatype Op =
    | Put(w: nat, key: CacheKey, msg: Msg, now: real, sharedNow: real)
    | Get(w: nat, key: CacheKey, allowStale: bool, now: real, sharedNow: real)
    | Flush(w: nat)

  /** The keys, messages and stored times that a run deals with. */
  datatype Matter = Matter(keys: set<CacheKey>, msgs: set<Msg>, times: set<real>) {
    predicate Has(op: Op) {
      match op
      case Put(_, key, msg, now, sharedNow) => key in keys && msg in msgs && sharedNow in times && now <= sharedNow
      case Get(_, key, _, now, sharedNow) => key in keys && now <= sharedNow
      case Flush(_) => true
    }
  }

  /** Of what a run deals with: different keys have different hashes, and messages
    * and times are read back as written. */
  ghost predicate Faithful(env: Env, m: Matter) {
    && env.layout.Valid()
    && (forall k, l :: k in m.keys && l in m.keys && env.hash(k) == env.hash(l) ==> k == l)
    && (forall msg :: msg in m.msgs ==> env.parse(env.toWire(msg)) == Some(msg))
    && (forall t :: t in m.times ==> env.read(env.write(t)) == t)
  }

  function Initial(env: Env, n: nat): State {
    State(seq(n, _ => NOTHING), seq(env.layout.slots, _ => None), [], seq(n, _ => 0), 0)
  }

  // ---- Steps ----

  ghost predicate Shaped(env: Env, s: State) {
    env.layout.Valid() && |s.table| == env.layout.slots && |s.since| == |s.workers|
  }

  /** What the shared memory answers; every stripe can be had. */
  function SharedAnswer(env: Env, table: seq<Option<Shared.Record>>, key: CacheKey, now: real): Option<(seq<byte>, real)>
    requires env.layout.Valid() && |table| == env.layout.slots
  {
    Shared.Answer(table[env.layout.Bucket(env.hash(key))], env.hash(key), now, env.read)
  }

  /** The write-through of a put: what does not fit a slot is not written. */
  function WriteThrough(env: Env, table: seq<Option<Shared.Record>>, e: PutEvent): seq<Option<Shared.Record>>
    requires env.layout.Valid() && |table| == env.layout.slots
  {
    var wire := env.toWire(e.msg);
    if e.ttl <= 0 then table
    else
      var r := Shared.Record(env.hash(e.key), wire, e.ttl, env.write(e.sharedAt));
      if r.Storable(env.layout) then table[env.layout.Bucket(r.key) := Some(r)] else table
  }

  function Do(env: Env, s: State, op: Op): (State, Answer)
    requires Shaped(env, s) && op.w < |s.workers|
  {
    match op
    case Put(w, key, msg, now, sharedNow) =>
      var s' := s.(workers := s.workers[w := PutResult(env.cfg, s.workers[w], key, msg, now)]);
      if !Keeps(env.cfg, msg) then (s', Miss)
      else
        var e := PutEvent(key, msg, DeriveTtl(env.cfg, msg), now, sharedNow);
        (s'.(log := s.log + [e], table := WriteThrough(env, s.table, e)), Miss)
    case Get(w, key, allowStale, now, sharedNow) =>
      var (store, r) := GetResult(env.cfg, s.workers[w], key, allowStale, now, SharedAnswer(env, s.table, key, sharedNow), env.parse);
      (s.(workers := s.workers[w := store]), r)
    case Flush(w) =>
      (s.(workers := s.workers[w := NOTHING], table := seq(env.layout.slots, _ => None),
          since := s.since[w := |s.log|], tableSince := |s.log|), Miss)
  }

  // ---- The invariant ----

  /** The entry is put `j`: its answer, fresh no longer than that put, and stale no
    * longer than the grace after that. */
  ghost predicate IsPut(cfg: Config, log: seq<PutEvent>, since: nat, j: nat, key: CacheKey, e: Entry) {
    && since <= j < |log| && log[j].key == key && log[j].msg == e.msg
    && e.Deadline() <= log[j].Deadline() && e.staleUntil == e.Deadline() + cfg.staleMax as real
  }

  ghost predicate EntryBacked(cfg: Config, log: seq<PutEvent>, since: nat, key: CacheKey, e: Entry) {
    exists j :: IsPut(cfg, log, since, j, key, e)
  }

  ghost predicate StoreBacked(cfg: Config, log: seq<PutEvent>, since: nat, s: Store) {
    forall key :: key in s.entries ==> EntryBacked(cfg, log, since, key, s.entries[key])
  }

  ghost predicate RecordIsPut(env: Env, log: seq<PutEvent>, since: nat, j: nat, r: Shared.Record) {
    && since <= j < |log| && r.key == env.hash(log[j].key) && r.wire == env.toWire(log[j].msg)
    && r.ttl == log[j].ttl && env.read(r.stamp) == log[j].sharedAt
  }

  ghost predicate RecordBacked(env: Env, log: seq<PutEvent>, since: nat, r: Shared.Record) {
    exists j :: RecordIsPut(env, log, since, j, r)
  }

  ghost predicate TableBacked(env: Env, log: seq<PutEvent>, since: nat, table: seq<Option<Shared.Record>>) {
    forall b :: 0 <= b < |table| && table[b].Some? ==> RecordBacked(env, log, since, table[b].value)
  }

  ghost predicate WorkerOk(env: Env, s: State, w: nat)
    requires w < |s.workers| == |s.since|
  {
    Bounded(env.cfg, s.workers[w]) && StoreBacked(env.cfg, s.log, s.since[w], s.workers[w]) && s.since[w] <= s.tableSince
  }

  /** The log is about the matter of the run. */
  ghost predicate LogIn(m: Matter, log: seq<PutEvent>) {
    forall j :: 0 <= j < |log| ==> log[j].key in m.keys && log[j].msg in m.msgs && log[j].sharedAt in m.times
  }

  ghost predicate Inv(env: Env, m: Matter, s: State) {
    && Shaped(env, s) && s.tableSince <= |s.log| && TableBacked(env, s.log, s.tableSince, s.table) && LogIn(m, s.log)
    && forall w :: 0 <= w < |s.workers| ==> WorkerOk(env, s, w)
  }

  lemma {:induction false} InitialInv(env: Env, m: Matter, n: nat)
    requires Faithful(env, m)
    ensures Inv(env, m, Initial(env, n))
  {
  }

  // ---- Entries come from somewhere ----

  /** After a get, every entry was there before or is the promoted one. */
  lemma {:induction false} GetEntries(cfg: Config, s: Store, key: CacheKey, allowStale: bool, now: real,
                                      shared: Option<(seq<byte>, real)>, parse: seq<byte> -> Option<Msg>, k: CacheKey)
    requires Bounded(cfg, s)
    ensures var s' := GetResult(cfg, s, key, allowStale, now, shared, parse).0;
            k in s'.entries ==>
              (k in s.entries && s'.entries[k] == s.entries[k])
              || (k == key && shared.Some? && parse(shared.value.0).Some?
                  && s'.entries[k] == Entry(parse(shared.value.0).value, now, shared.value.1,
                                            now + shared.value.1 + cfg.staleMax as real))
  {
    hide LocalGet, Promoted, Retimed, Floor, Bounded;
    LocalStaysBounded(cfg, s, key, allowStale, now);
    LocalEntries(cfg, s, key, allowStale, now, k);
    if shared.Some? && parse(shared.value.0).Some? {
      PromotedEntries(cfg, LocalGet(cfg, s, key, allowStale, now).0, key, parse(shared.value.0).value, shared.value.1, now, k);
    }
  }

  lemma {:induction false} PromotedEntries(cfg: Config, s: Store, key: CacheKey, msg: Msg, remaining: real, now: real, k: CacheKey)
    requires Bounded(cfg, s)
    ensures var s' := Promoted(cfg, s, key, msg, remaining, now);
            k in s'.entries ==>
              if k == key then s'.entries[k] == Entry(msg, now, remaining, now + remaining + cfg.staleMax as real)
              else k in s.entries && s'.entries[k] == s.entries[k]
  {
    hide Evicted, Stored, Listed;
    var e := Entry(msg, now, remaining, now + remaining + cfg.staleMax as real);
    StoreStaysListed(s, key, e);
    StoredHas(s, key, e);
    EvictionKeepsNewest(Stored(s, key, e), cfg.maxEntries);
  }

  lemma {:induction false} LocalEntries(cfg: Config, s: Store, key: CacheKey, allowStale: bool, now: real, k: CacheKey)
    ensures var s' := LocalGet(cfg, s, key, allowStale, now).0;
            k in s'.entries ==> k in s.entries && s'.entries[k] == s.entries[k]
  {
    hide Retimed, Floor;
  }

  lemma {:induction false} PutEntries(cfg: Config, s: Store, key: CacheKey, msg: Msg, now: real, k: CacheKey)
    requires Bounded(cfg, s) && Keeps(cfg, msg)
    ensures var s' := PutResult(cfg, s, key, msg, now);
            k in s'.entries ==>
              if k == key then s'.entries[k] == NewEntry(cfg, msg, now)
              else k in s.entries && s'.entries[k] == s.entries[k]
  {
    hide Evicted, Keeps, NewEntry, Listed, Stored;
    var e := NewEntry(cfg, msg, now);
    StoreStaysListed(s, key, e);
    StoredHas(s, key, e);
    StoreStaysListed(Stored(s, key, e), key, e);
    EvictionKeepsNewest(Touched(Stored(s, key, e), key), cfg.maxEntries);
  }

  /** An answer of the shared memory is a put under this very key, and what is left
    * of its TTL leads to the put's own deadline. */
  lemma {:induction false} SharedAnswerIsPut(env: Env, m: Matter, s: State, key: CacheKey, now: real) returns (j: nat)
    requires Faithful(env, m) && Inv(env, m, s) && key in m.keys && SharedAnswer(env, s.table, key, now).Some?
    ensures s.tableSince <= j < |s.log| && s.log[j].key == key
    ensures var (wire, remaining) := SharedAnswer(env, s.table, key, now).value;
            env.parse(wire) == Some(s.log[j].msg) && remaining > 0.0 && now + remaining == s.log[j].Deadline()
  {
    var b := env.layout.Bucket(env.hash(key));
    var r := s.table[b].value;
    assert RecordBacked(env, s.log, s.tableSince, r);
    j :| RecordIsPut(env, s.log, s.tableSince, j, r);
  }

  // ---- Every step keeps the invariant ----

  lemma {:induction false} MoreLogBacks(cfg: Config, log: seq<PutEvent>, since: nat, s: Store, e: PutEvent)
    requires StoreBacked(cfg, log, since, s)
    ensures StoreBacked(cfg, log + [e], since, s)
  {
    forall key | key in s.entries
      ensures EntryBacked(cfg, log + [e], since, key, s.entries[key])
    {
      assert EntryBacked(cfg, log, since, key, s.entries[key]);
      var j :| IsPut(cfg, log, since, j, key, s.entries[key]);
      assert IsPut(cfg, log + [e], since, j, key, s.entries[key]);
    }
  }

  lemma {:induction false} MoreLogBacksTable(env: Env, log: seq<PutEvent>, since: nat, table: seq<Option<Shared.Record>>, e: PutEvent)
    requires TableBacked(env, log, since, table)
    ensures TableBacked(env, log + [e], since, table)
  {
    forall b | 0 <= b < |table| && table[b].Some?
      ensures RecordBacked(env, log + [e], since, table[b].value)
    {
      assert RecordBacked(env, log, since, table[b].value);
      var j :| RecordIsPut(env, log, since, j, table[b].value);
      assert RecordIsPut(env, log + [e], since, j, table[b].value);
    }
  }

  lemma {:induction false} WriteThroughBacked(env: Env, log: seq<PutEvent>, since: nat, table: seq<Option<Shared.Record>>, e: PutEvent)
    requires env.layout.Valid() && env.read(env.write(e.sharedAt)) == e.sharedAt
    requires |table| == env.layout.slots && since <= |log| && TableBacked(env, log, since, table)
    ensures TableBacked(env, log + [e], since, WriteThrough(env, table, e))
  {
    MoreLogBacksTable(env, log, since, table, e);
    if e.ttl > 0 {
      var r := Shared.Record(env.hash(e.key), env.toWire(e.msg), e.ttl, env.write(e.sharedAt));
      assert RecordIsPut(env, log + [e], since, |log|, r);
    }
  }

  lemma {:induction false} PutKeepsInv(env: Env, m: Matter, s: State, w: nat, key: CacheKey, msg: Msg, now: real, sharedNow: real)
    requires Faithful(env, m) && Inv(env, m, s) && w < |s.workers| && m.Has(Op.Put(w, key, msg, now, sharedNow))
    ensures Inv(env, m, Do(env, s, Op.Put(w, key, msg, now, sharedNow)).0)
  {
    hide WriteThrough, Bounded, StoreBacked, TableBacked, PutResult, DeriveTtl;
    var s' := Do(env, s, Op.Put(w, key, msg, now, sharedNow)).0;
    assert WorkerOk(env, s, w);
    PutStaysBounded(env.cfg, s.workers[w], key, msg, now);
    if Keeps(env.cfg, msg) {
      var e := PutEvent(key, msg, DeriveTtl(env.cfg, msg), now, sharedNow);
      WriteThroughShape(env, s.table, e);
      WriteThroughBacked(env, s.log, s.tableSince, s.table, e);
      PutBacked(env.cfg, s.log, s.since[w], s.workers[w], e);
      forall v | 0 <= v < |s'.workers|
        ensures WorkerOk(env, s', v)
      {
        assert WorkerOk(env, s, v);
        MoreLogBacks(env.cfg, s.log, s.since[v], s.workers[v], e);
      }
    } else {
      NotKept(env.cfg, s.workers[w], key, msg, now);
      assert s' == s;
    }
  }

  lemma {:induction false} NotKept(cfg: Config, s: Store, key: CacheKey, msg: Msg, now: real)
    requires !Keeps(cfg, msg)
    ensures PutResult(cfg, s, key, msg, now) == s
  {
  }

  lemma {:induction false} WriteThroughShape(env: Env, table: seq<Option<Shared.Record>>, e: PutEvent)
    requires env.layout.Valid() && |table| == env.layout.slots
    ensures |WriteThrough(env, table, e)| == |table|
  {
  }

  lemma {:induction false} PutBacked(cfg: Config, log: seq<PutEvent>, since: nat, s: Store, e: PutEvent)
    requires StoreBacked(cfg, log, since, s) && Bounded(cfg, s) && since <= |log| && e.at <= e.sharedAt
    requires Keeps(cfg, e.msg) && e.ttl == DeriveTtl(cfg, e.msg)
    ensures StoreBacked(cfg, log + [e], since, PutResult(cfg, s, e.key, e.msg, e.at))
  {
    hide PutResult, Keeps, DeriveTtl, Bounded;
    var s' := PutResult(cfg, s, e.key, e.msg, e.at);
    MoreLogBacks(cfg, log, since, s, e);
    forall k | k in s'.entries
      ensures EntryBacked(cfg, log + [e], since, k, s'.entries[k])
    {
      PutEntries(cfg, s, e.key, e.msg, e.at, k);
      if k == e.key {
        assert IsPut(cfg, log + [e], since, |log|, k, s'.entries[k]);
      } else {
        assert EntryBacked(cfg, log + [e], since, k, s.entries[k]);
      }
    }
  }

  lemma {:induction false} GetKeepsInv(env: Env, m: Matter, s: State, w: nat, key: CacheKey, allowStale: bool, now: real, sharedNow: real)
    requires Faithful(env, m) && Inv(env, m, s) && w < |s.workers| && m.Has(Op.Get(w, key, allowStale, now, sharedNow))
    ensures Inv(env, m, Do(env, s, Op.Get(w, key, allowStale, now, sharedNow)).0)
  {
    hide Bounded, StoreBacked, TableBacked, GetResult, SharedAnswer, Faithful;
    var s' := Do(env, s, Op.Get(w, key, allowStale, now, sharedNow)).0;
    assert WorkerOk(env, s, w);
    GetStaysBounded(env.cfg, s.workers[w], key, allowStale, now, SharedAnswer(env, s.table, key, sharedNow), env.parse);
    GetBacked(env, m, s, w, key, allowStale, now, sharedNow);
    forall v | 0 <= v < |s'.workers|
      ensures WorkerOk(env, s', v)
    {
      assert WorkerOk(env, s, v);
    }
  }

  lemma {:induction false} GetBacked(env: Env, m: Matter, s: State, w: nat, key: CacheKey, allowStale: bool, now: real, sharedNow: real)
    requires Faithful(env, m) && Inv(env, m, s) && w < |s.workers| && key in m.keys && now <= sharedNow
    ensures StoreBacked(env.cfg, s.log, s.since[w],
              GetResult(env.cfg, s.workers[w], key, allowStale, now, SharedAnswer(env, s.table, key, sharedNow), env.parse).0)
  {
    hide GetResult, SharedAnswer, Faithful, Bounded, TableBacked;
    assert WorkerOk(env, s, w);
    var shared := SharedAnswer(env, s.table, key, sharedNow);
    var store := GetResult(env.cfg, s.workers[w], key, allowStale, now, shared, env.parse).0;
    forall k | k in store.entries
      ensures EntryBacked(env.cfg, s.log, s.since[w], k, store.entries[k])
    {
      GetEntries(env.cfg, s.workers[w], key, allowStale, now, shared, env.parse, k);
      if !(k in s.workers[w].entries && store.entries[k] == s.workers[w].entries[k]) {
        var j := SharedAnswerIsPut(env, m, s, key, sharedNow);
        assert IsPut(env.cfg, s.log, s.since[w], j, k, store.entries[k]);
      }
    }
  }

  lemma {:induction false} FlushKeepsInv(env: Env, m: Matter, s: State, w: nat)
    requires Inv(env, m, s) && w < |s.workers|
    ensures Inv(env, m, Do(env, s, Flush(w)).0)
  {
    var s' := Do(env, s, Flush(w)).0;
    forall v | 0 <= v < |s'.workers|
      ensures WorkerOk(env, s', v)
    {
      assert WorkerOk(env, s, v);
    }
  }

  function Run(env: Env, s: State, ops: seq<Op>): State
    requires Shaped(env, s) && forall op :: op in ops ==> op.w < |s.workers|
    ensures Shaped(env, Run(env, s, ops)) && |Run(env, s, ops).workers| == |s.workers|
    decreases |ops|
  {
    if ops == [] then s
    else
      DoShape(env, s, ops[0]);
      Run(env, Do(env, s, ops[0]).0, ops[1..])
  }

  lemma {:induction false} DoShape(env: Env, s: State, op: Op)
    requires Shaped(env, s) && op.w < |s.workers|
    ensures Shaped(env, Do(env, s, op).0) && |Do(env, s, op).0.workers| == |s.workers|
  {
  }

  lemma {:induction false} RunKeepsInv(env: Env, m: Matter, s: State, ops: seq<Op>)
    requires Faithful(env, m) && Inv(env, m, s) && forall op :: op in ops ==> op.w < |s.workers| && m.Has(op)
    ensures Shaped(env, s) && Inv(env, m, Run(env, s, ops))
    decreases |ops|
  {
    hide Inv, Do, Faithful, Matter.Has;
    InvIsShaped(env, m, s);
    if ops != [] {
      DoShape(env, s, ops[0]);
      assert ops[0] in ops;
      match ops[0] {
        case Put(w, key, msg, now, sharedNow) => PutKeepsInv(env, m, s, w, key, msg, now, sharedNow);
        case Get(w, key, allowStale, now, sharedNow) => GetKeepsInv(env, m, s, w, key, allowStale, now, sharedNow);
        case Flush(w) => FlushKeepsInv(env, m, s, w);
      }
      RunKeepsInv(env, m, Do(env, s, ops[0]).0, ops[1..]);
    }
  }

  lemma {:induction false} InvIsShaped(env: Env, m: Matter, s: State)
    requires Inv(env, m, s)
    ensures Shaped(env, s)
  {
  }

  // ---- Freshness ----

  /** Where a hit comes from: a put under this key, by some worker, after this
    * worker last flushed. Fresh, its deadline has not passed and the TTL shown is
    * the whole seconds of a time left that does not lead beyond it; stale, it was
    * asked for and is within the grace. */
  ghost predicate Justified(env: Env, s: State, w: nat, key: CacheKey, allowStale: bool, now: real, r: Answer, j: nat)
    requires w < |s.since| && r.Hit?
  {
    && s.since[w] <= j < |s.log| && s.log[j].key == key
    && var deadline := s.log[j].Deadline();
       if !r.stale then now < deadline && exists left: real :: 0.0 < left <= deadline - now && FreshHit(r, s.log[j].msg, left)
       else allowStale && env.cfg.serveStale && now < deadline + env.cfg.staleMax as real
            && StaleHit(r, s.log[j].msg)
  }

  lemma {:induction false} HitIsJustified(env: Env, m: Matter, s: State, w: nat, key: CacheKey, allowStale: bool, now: real, sharedNow: real)
    requires Faithful(env, m) && Inv(env, m, s) && w < |s.workers| && m.Has(Op.Get(w, key, allowStale, now, sharedNow))
    ensures var r := Do(env, s, Op.Get(w, key, allowStale, now, sharedNow)).1;
            r.Hit? ==> exists j :: Justified(env, s, w, key, allowStale, now, r, j)
  {
    hide GetResult, Faithful, Bounded, TableBacked, SharedAnswer, FreshHit, StaleHit, Justified;
    assert WorkerOk(env, s, w);
    var store, shared := s.workers[w], SharedAnswer(env, s.table, key, sharedNow);
    var r := Do(env, s, Op.Get(w, key, allowStale, now, sharedNow)).1;
    GetShows(env.cfg, store, key, allowStale, now, shared, env.parse);
    if r.Hit? {
      if key in store.entries
         && (now < store.entries[key].Deadline()
             || (now < store.entries[key].staleUntil && allowStale && env.cfg.serveStale)) {
        var e := store.entries[key];
        assert EntryBacked(env.cfg, s.log, s.since[w], key, e);
        var j: nat :| IsPut(env.cfg, s.log, s.since[w], j, key, e);
        LocalHitJustified(env, s, w, key, allowStale, now, r, j, e);
      } else {
        var j := SharedAnswerIsPut(env, m, s, key, sharedNow);
        FreshIsJustified(env, s, w, key, allowStale, now, r, j, shared.value.1);
      }
    }
  }

  lemma {:induction false} FreshIsJustified(env: Env, s: State, w: nat, key: CacheKey, allowStale: bool, now: real, r: Answer, j: nat, left: real)
    requires w < |s.since| && s.since[w] <= j < |s.log| && s.log[j].key == key
    requires 0.0 < left <= s.log[j].Deadline() - now && FreshHit(r, s.log[j].msg, left)
    ensures r.Hit? && Justified(env, s, w, key, allowStale, now, r, j)
  {
  }

  lemma {:induction false} LocalHitJustified(env: Env, s: State, w: nat, key: CacheKey, allowStale: bool, now: real, r: Answer, j: nat, e: Entry)
    requires w < |s.since| && r.Hit? && IsPut(env.cfg, s.log, s.since[w], j, key, e)
    requires if now < e.Deadline() then FreshHit(r, e.msg, e.Deadline() - now)
             else now < e.staleUntil && env.cfg.serveStale && allowStale && StaleHit(r, e.msg)
    ensures Justified(env, s, w, key, allowStale, now, r, j)
  {
    if now < e.Deadline() {
      FreshIsJustified(env, s, w, key, allowStale, now, r, j, e.Deadline() - now);
    }
  }

  /** Two-level freshness over every run: whatever the workers have put, got and
    * flushed, every hit is justified and no store is over its limit. The
    * environment need only be faithful to what the run deals with. */
  lemma {:induction false} EveryHitIsJustified(env: Env, m: Matter, n: nat, ops: seq<Op>, w: nat, key: CacheKey,
                                               allowStale: bool, now: real, sharedNow: real)
    requires Faithful(env, m) && w < n && forall op :: op in ops ==> op.w < n && m.Has(op)
    requires m.Has(Op.Get(w, key, allowStale, now, sharedNow))
    ensures Shaped(env, Initial(env, n))
    ensures var s := Run(env, Initial(env, n), ops);
            && |s.workers| == |s.since| == n
            && |s.workers[w].order| <= env.cfg.maxEntries
            && var r := Do(env, s, Op.Get(w, key, allowStale, now, sharedNow)).1;
               r.Hit? ==> exists j :: Justified(env, s, w, key, allowStale, now, r, j)
  {
    hide Do, Faithful, Justified, Matter.Has;
    InitialInv(env, m, n);
    RunKeepsInv(env, m, Initial(env, n), ops);
    var s := Run(env, Initial(env, n), ops);
    HitIsJustified(env, m, s, w, key, allowStale, now, sharedNow);
    assert WorkerOk(env, s, w);
  }

  /** Promotion never moves a deadline later: an entry that a get brings into a local
    * store expires when the record of the shared memory does, less the time between
    * the two looks at the clock. */
  lemma {:induction false} PromotionNeverExtends(env: Env, m: Matter, s: State, w: nat, key: CacheKey, allowStale: bool,
                                                 now: real, sharedNow: real, k: CacheKey)
    requires Faithful(env, m) && Inv(env, m, s) && w < |s.workers| && m.Has(Op.Get(w, key, allowStale, now, sharedNow))
    ensures var before, after := s.workers[w].entries, Do(env, s, Op.Get(w, key, allowStale, now, sharedNow)).0.workers[w].entries;
            k in after && !(k in before && before[k] == after[k]) ==>
              var record := s.table[env.layout.Bucket(env.hash(key))];
              && k == key && record.Some? && record.value.key == env.hash(key)
              && var deadline := env.read(record.value.stamp) + record.value.ttl as real;
                 after[k].Deadline() == deadline - (sharedNow - now) <= deadline
  {
    hide GetResult, Faithful, Bounded, TableBacked;
    assert WorkerOk(env, s, w);
    GetEntries(env.cfg, s.workers[w], key, allowStale, now, SharedAnswer(env, s.table, key, sharedNow), env.parse, k);
  }

  /** A flush reaches the flushing worker and the shared memory only: another
    * worker goes on answering from its own store. */
  lemma {:induction false} FlushSparesOthers(env: Env, s: State, w: nat, v: nat, key: CacheKey, now: real)
    requires Shaped(env, s) && w < |s.workers| && v < |s.workers| && v != w
    requires env.cfg.enabled && key in s.workers[v].entries && now < s.workers[v].entries[key].Deadline()
    ensures var s' := Do(env, s, Flush(w)).0;
            && Do(env, s', Op.Get(w, key, true, now, now)).1 == Miss
            && Do(env, s', Op.Get(v, key, true, now, now)).1.Hit?
  {
  }

  // ---- Failures ----

  /** A put of an answer that tells of a failure. */
  predicate PutsFailure(op: Op) {
    op.Put? && op.msg.rcode != 0 && op.msg.rcode != 3
  }

  /** The run without its failures. */
  function WithoutFailures(ops: seq<Op>): (rest: seq<Op>)
    ensures forall op :: op in rest ==> op in ops && !PutsFailure(op)
  {
    if ops == [] then [] else (if PutsFailure(ops[0]) then [] else [ops[0]]) + WithoutFailures(ops[1..])
  }

  /** Failures are as if they had never been: whatever is put, got and flushed, and
    * whichever of the puts are failures, the stores of all workers, their order and
    * the shared memory come out as without them. So no failure replaces, cools or
    * outlives a retained answer. */
  lemma {:induction false} FailuresLeaveNoTrace(env: Env, s: State, ops: seq<Op>)
    requires Shaped(env, s) && forall op :: op in ops ==> op.w < |s.workers|
    ensures Run(env, s, WithoutFailures(ops)) == Run(env, s, ops)
    decreases |ops|
  {
    hide Do, Shaped, PutsFailure, Run;
    if ops == [] {
      assert WithoutFailures(ops) == ops;
    } else {
      var rest := WithoutFailures(ops[1..]);
      DoShape(env, s, ops[0]);
      RunNext(env, s, ops[0], ops[1..]);
      FailuresLeaveNoTrace(env, Do(env, s, ops[0]).0, ops[1..]);
      assert ops == [ops[0]] + ops[1..];
      if PutsFailure(ops[0]) {
        FailureDoesNothing(env, s, ops[0]);
        assert WithoutFailures(ops) == rest;
      } else {
        RunNext(env, s, ops[0], rest);
        assert WithoutFailures(ops) == [ops[0]] + rest;
      }
    }
  }

  lemma {:induction false} RunNext(env: Env, s: State, op: Op, rest: seq<Op>)
    requires Shaped(env, s) && op.w < |s.workers| && forall o :: o in rest ==> o.w < |s.workers|
    ensures Shaped(env, Do(env, s, op).0) && |Do(env, s, op).0.workers| == |s.workers|
    ensures Run(env, s, [op] + rest) == Run(env, Do(env, s, op).0, rest)
  {
    hide Do, Shaped;
    DoShape(env, s, op);
    assert ([op] + rest)[1..] == rest;
  }

  lemma {:induction false} FailureDoesNothing(env: Env, s: State, op: Op)
    requires Shaped(env, s) && op.w < |s.workers| && PutsFailure(op)
    ensures Do(env, s, op) == (s, Miss)
  {
    FailureChangesNothing(env.cfg, s.workers[op.w], op.key, op.msg, op.now);
    assert s.workers[op.w := s.workers[op.w]] == s.workers;
  }

  /** What a put writes through. */
  function RecordOf(env: Env, e: PutEvent): Shared.Record
    requires e.ttl > 0
  {
    Shared.Record(env.hash(e.key), env.toWire(e.msg), e.ttl, env.write(e.sharedAt))
  }

  lemma {:induction false} PutIsShared(env: Env, m: Matter, s: State, w: nat, v: nat, key: CacheKey, msg: Msg, now: real, sharedNow: real)
    requires Faithful(env, m) && Shaped(env, s) && w < |s.workers| && v < |s.workers| && v != w
    requires m.Has(Op.Put(w, key, msg, now, sharedNow))
    requires env.cfg.enabled && (msg.rcode == 0 || msg.rcode == 3) && DeriveTtl(env.cfg, msg) > 0
    requires RecordOf(env, PutEvent(key, msg, DeriveTtl(env.cfg, msg), now, sharedNow)).Storable(env.layout)
    ensures var s1 := Do(env, s, Op.Put(w, key, msg, now, sharedNow)).0;
            && Shaped(env, s1) && v < |s1.workers| && s1.workers[v] == s.workers[v]
            && s1.table[env.layout.Bucket(env.hash(key))] ==
               Some(Shared.Record(env.hash(key), env.toWire(msg), DeriveTtl(env.cfg, msg), env.write(sharedNow)))
  {
    assert Keeps(env.cfg, msg);
    hide Evicted, DeriveTtl, PutResult, GetResult;
  }

  lemma {:induction false} SharedIsHit(env: Env, m: Matter, s: State, v: nat, key: CacheKey, msg: Msg, ttl: nat, sharedNow: real,
                                       later: real, sharedLater: real)
    requires Faithful(env, m) && Shaped(env, s) && v < |s.workers| && env.cfg.enabled && key !in s.workers[v].entries
    requires msg in m.msgs && sharedNow in m.times && sharedLater < sharedNow + ttl as real
    requires s.table[env.layout.Bucket(env.hash(key))] ==
             Some(Shared.Record(env.hash(key), env.toWire(msg), ttl, env.write(sharedNow)))
    ensures FreshHit(Do(env, s, Op.Get(v, key, false, later, sharedLater)).1, msg, sharedNow + ttl as real - sharedLater)
  {
    hide Evicted, Retimed, Floor, PutResult, Touched, Without, FreshHit, DeriveTtl;
    FreshIsHit(msg, sharedNow + ttl as real - sharedLater);
    assert SharedAnswer(env, s.table, key, sharedLater) == Some((env.toWire(msg), ttl as real - (sharedLater - sharedNow)));
  }

  /** The point of the shared memory: what one worker has put, another one that
    * does not hold it gets, until the put's deadline. */
  lemma {:induction false} OtherWorkersBenefit(env: Env, m: Matter, s: State, w: nat, v: nat, key: CacheKey, msg: Msg,
                                               now: real, sharedNow: real, later: real, sharedLater: real)
    requires Faithful(env, m) && Inv(env, m, s) && w < |s.workers| && v < |s.workers| && v != w
    requires m.Has(Op.Put(w, key, msg, now, sharedNow)) && key !in s.workers[v].entries
    requires env.cfg.enabled && (msg.rcode == 0 || msg.rcode == 3) && DeriveTtl(env.cfg, msg) > 0
    requires RecordOf(env, PutEvent(key, msg, DeriveTtl(env.cfg, msg), now, sharedNow)).Storable(env.layout)
    requires sharedLater < sharedNow + DeriveTtl(env.cfg, msg) as real
    ensures Shaped(env, Do(env, s, Op.Put(w, key, msg, now, sharedNow)).0)
    ensures FreshHit(Do(env, Do(env, s, Op.Put(w, key, msg, now, sharedNow)).0, Op.Get(v, key, false, later, sharedLater)).1,
                     msg, sharedNow + DeriveTtl(env.cfg, msg) as real - sharedLater)
  {
    InvIsShaped(env, m, s);
    hide Do, DeriveTtl, FreshHit, Inv;
    PutIsShared(env, m, s, w, v, key, msg, now, sharedNow);
    SharedIsHit(env, m, Do(env, s, Op.Put(w, key, msg, now, sharedNow)).0, v, key, msg, DeriveTtl(env.cfg, msg), sharedNow,
                later, sharedLater);
  }

  /** The hypotheses can be met, and by a run that does something: here one worker
    * puts an answer and another one gets it out of the shared memory. */
  lemma {:induction false} SomeRunIsFaithful() returns (env: Env, m: Matter, ops: seq<Op>)
    ensures Faithful(env, m) && forall op :: op in ops ==> op.w < 2 && m.Has(op)
    ensures |ops| == 2 && ops[0].Put? && ops[0].w == 0 && ops[1].Get? && ops[1].w == 1
    ensures Shaped(env, Initial(env, 2)) && Shaped(env, Run(env, Initial(env, 2), ops[..1]))
    ensures Do(env, Run(env, Initial(env, 2), ops[..1]), ops[1]).1.Hit?
  {
    var msg := Msg(RCODE_NOERROR, [Rec(60, None, false, "192.0.2.1")], [], [], "");
    var stamp: Shared.Stamp := [0, 0, 0, 0, 0, 0, 0, 0];
    env := Env(Config(10, 0, 3600, 900, true, 0, true), Shared.Layout(1, 16), _ => 7, _ => [1], _ => Some(msg), _ => stamp, _ => 5.0);
    m := Matter({"a"}, {msg}, {5.0});
    var put := Op.Put(0, "a", msg, 5.0, 5.0);
    ops := [put, Op.Get(1, "a", false, 6.0, 6.0)];
    var s := Initial(env, 2);
    InitialInv(env, m, 2);
    OneMinute(env.cfg, msg);
    OtherWorkersBenefit(env, m, s, 0, 1, "a", msg, 5.0, 5.0, 6.0, 6.0);
    assert ops[..1] == [put];
    RunOne(env, s, put);
  }

  lemma {:induction false} RunOne(env: Env, s: State, op: Op)
    requires Shaped(env, s) && op.w < |s.workers|
    ensures Run(env, s, [op]) == Do(env, s, op).0
  {
    hide Do;
    DoShape(env, s, op);
    assert [op][1..] == [];
  }

  lemma {:induction false} OneMinute(cfg: Config, msg: Msg)
    requires cfg == Config(10, 0, 3600, 900, true, 0, true)
    requires msg == Msg(RCODE_NOERROR, [Rec(60, None, false, "192.0.2.1")], [], [], "")
    ensures DeriveTtl(cfg, msg) == 60 && Keeps(cfg, msg)
  {
    var recs := msg.answers + msg.authority;
    assert recs == msg.answers;
    assert recs[0] in recs && LeastTtl(recs) == Some(60);
  }
}
