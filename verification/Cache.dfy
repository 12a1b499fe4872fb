// The answer cache of one worker over the cross-worker memory (cache/cache.py).

module Caches {
  import opened Wrappers
  import opened Bytes

  const RCODE_NOERROR: nat := 0
  const RCODE_NXDOMAIN: nat := 3
  const STALE_TTL: int := 30

  type CacheKey = string

  /** A record: its TTL, and for an SOA record the MINIMUM field. */
  datatype Rec = Rec(ttl: int, soa: Option<int>, opt: bool, body: string)

  datatype Msg = Msg(rcode: nat, answers: seq<Rec>, authority: seq<Rec>, additional: seq<Rec>, rest: string)

  datatype Entry = Entry(msg: Msg, inserted: real, ttl: real, staleUntil: real) {
    function Deadline(): real {
      inserted + ttl
    }
  }

  datatype Config = Config(maxEntries: nat, minTtl: int, maxTtl: int, negativeTtl: int,
                           serveStale: bool, staleMax: int, enabled: bool)

  // ---- TTLs ----

  function Max(a: int, b: int): int {
    if a >= b then a else b
  }

  function Min(a: int, b: int): int {
    if a <= b then a else b
  }

  function Clamp(cfg: Config, ttl: int): int {
    Max(cfg.minTtl, Min(cfg.maxTtl, ttl))
  }

  /** The smallest TTL of a section, OPT aside. */
  function LeastTtl(recs: seq<Rec>): (least: Option<int>)
    ensures least.Some? ==> exists r :: r in recs && !r.opt && r.ttl == least.value
    ensures forall r :: r in recs && !r.opt ==> least.Some? && least.value <= r.ttl
  {
    if recs == [] then None
    else
      var rest := LeastTtl(recs[1..]);
      if recs[0].opt || (rest.Some? && rest.value <= recs[0].ttl) then rest else Some(recs[0].ttl)
  }

  /** The least of the SOA records' own TTLs and MINIMUM fields. */
  function LeastSoa(recs: seq<Rec>): (least: Option<int>)
    ensures forall r :: r in recs && r.soa.Some? ==> least.Some? && least.value <= r.ttl && least.value <= r.soa.value
    ensures least.Some? ==> exists r :: r in recs && r.soa.Some? && least.value == Min(r.ttl, r.soa.value)
  {
    if recs == [] then None
    else
      var rest := LeastSoa(recs[1..]);
      if recs[0].soa.None? then rest
      else
        var own := Min(recs[0].ttl, recs[0].soa.value);
        if rest.Some? && rest.value <= own then rest else Some(own)
  }

  predicate Cacheable(msg: Msg) {
    msg.rcode == RCODE_NOERROR || msg.rcode == RCODE_NXDOMAIN
  }

  /** `_derive_ttl`. */
  function DeriveTtl(cfg: Config, msg: Msg): int {
    if Cacheable(msg) && msg.answers == [] then
      var base := LeastSoa(msg.authority);
      Clamp(cfg, Min(if base.Some? then base.value else cfg.negativeTtl, cfg.negativeTtl))
    else
      var least := LeastTtl(msg.answers + msg.authority);
      Clamp(cfg, if least.Some? then least.value else cfg.minTtl)
  }

  /** A stored answer outlives none of its records, a negative one neither its
    * SOA's TTL and MINIMUM nor the configured negative TTL, except to reach the
    * configured floor; nothing outlives the configured ceiling. */
  lemma {:induction false} TtlIsHonest(cfg: Config, msg: Msg)
    requires Cacheable(msg) && cfg.minTtl <= cfg.maxTtl
    ensures var ttl := DeriveTtl(cfg, msg);
            && cfg.minTtl <= ttl <= cfg.maxTtl
            && (ttl > cfg.minTtl && msg.answers != [] ==>
                  forall r :: r in msg.answers + msg.authority && !r.opt ==> ttl <= r.ttl)
            && (ttl > cfg.minTtl && msg.answers == [] ==>
                  ttl <= cfg.negativeTtl
                  && forall r :: r in msg.authority && r.soa.Some? ==> ttl <= r.ttl && ttl <= r.soa.value)
  {
  }

  /** And it is not cut shorter than that: a time which all of these bounds allow, and the
    * ceiling, is kept. */
  lemma {:induction false} TtlIsNoShorter(cfg: Config, msg: Msg, x: int)
    requires x <= cfg.maxTtl
    requires if (msg.rcode == 0 || msg.rcode == 3) && msg.answers == [] then
               x <= cfg.negativeTtl && forall r :: r in msg.authority && r.soa.Some? ==> x <= r.ttl && x <= r.soa.value
             else
               (exists r :: r in msg.answers + msg.authority && !r.opt)
               && forall r :: r in msg.answers + msg.authority && !r.opt ==> x <= r.ttl
    ensures DeriveTtl(cfg, msg) >= x
  {
  }

  // ---- What a hit looks like ----

  /** The section has the records of `was`, in order, all with this TTL. */
  ghost predicate SectionShows(now: seq<Rec>, was: seq<Rec>, ttl: int) {
    && |now| == |was|
    && forall i :: 0 <= i < |was| ==>
         now[i].ttl == ttl && now[i].body == was[i].body && now[i].soa == was[i].soa && now[i].opt == was[i].opt
  }

  /** The message is `was`, but that every record has this TTL. */
  ghost predicate Shows(now: Msg, was: Msg, ttl: int) {
    && now.rcode == was.rcode && now.rest == was.rest
    && SectionShows(now.answers, was.answers, ttl) && SectionShows(now.authority, was.authority, ttl)
    && SectionShows(now.additional, was.additional, ttl)
  }

  ghost predicate WholeSeconds(n: int, left: real) {
    n as real <= left < (n + 1) as real
  }

  /** A fresh hit of `was` with this much time left. */
  ghost predicate FreshHit(r: Answer, was: Msg, left: real) {
    r.Hit? && !r.stale && exists n :: WholeSeconds(n, left) && Shows(r.msg, was, n)
  }

  ghost predicate StaleHit(r: Answer, was: Msg) {
    r.Hit? && r.stale && Shows(r.msg, was, 30)
  }

  /** What a lookup owes: the stored answer while it is fresh; the stored answer again, if
    * stale ones are served and asked for, until its grace is over; otherwise what the
    * shared memory has; otherwise nothing. */
  ghost predicate GotRight(cfg: Config, s: Store, key: CacheKey, allowStale: bool, now: real,
                           shared: Option<(seq<byte>, real)>, parse: seq<byte> -> Option<Msg>, r: Answer)
  {
    var held := key in s.entries;
    if !cfg.enabled then r == Miss
    else if held && now < s.entries[key].Deadline() then FreshHit(r, s.entries[key].msg, s.entries[key].Deadline() - now)
    else if held && now < s.entries[key].staleUntil && cfg.serveStale && allowStale then StaleHit(r, s.entries[key].msg)
    else if shared.Some? && parse(shared.value.0).Some? then
      shared.value.1 > 0.0 ==> FreshHit(r, parse(shared.value.0).value, shared.value.1)
    else r == Miss
  }

  lemma {:induction false} RetimedShows(msg: Msg, ttl: int)
    ensures Shows(Retimed(msg, ttl), msg, ttl)
  {
  }

  lemma {:induction false} FloorIsWhole(left: real)
    requires left > 0.0
    ensures WholeSeconds(Floor(left), left)
  {
  }

  lemma {:induction false} FreshIsHit(msg: Msg, left: real)
    requires left > 0.0
    ensures FreshHit(Hit(Retimed(msg, Floor(left)), false), msg, left)
  {
    RetimedShows(msg, Floor(left));
    FloorIsWhole(left);
  }

  lemma {:induction false} GetShows(cfg: Config, s: Store, key: CacheKey, allowStale: bool, now: real,
                                    shared: Option<(seq<byte>, real)>, parse: seq<byte> -> Option<Msg>)
    ensures GotRight(cfg, s, key, allowStale, now, shared, parse,
                     GetResult(cfg, s, key, allowStale, now, shared, parse).1)
  {
    hide FreshHit, Retimed, Floor, Touched, Dropped, Promoted, Shows;
    if key in s.entries {
      var e := s.entries[key];
      assert e.Deadline() - now == e.ttl - (now - e.inserted);
      if now < e.Deadline() {
        FreshIsHit(e.msg, e.Deadline() - now);
      }
      RetimedShows(e.msg, 30);
    }
    if shared.Some? && parse(shared.value.0).Some? && shared.value.1 > 0.0 {
      FreshIsHit(parse(shared.value.0).value, shared.value.1);
    }
  }

  function Retimed(msg: Msg, ttl: int): Msg {
    msg.(answers := WithTtl(msg.answers, ttl), authority := WithTtl(msg.authority, ttl),
         additional := WithTtl(msg.additional, ttl))
  }

  function WithTtl(recs: seq<Rec>, ttl: int): seq<Rec> {
    seq(|recs|, i requires 0 <= i < |recs| => recs[i].(ttl := ttl))
  }

  function Floor(x: real): int {
    Max(0, x.Floor)
  }

  // ---- The local store, least recently used first ----

  datatype Store = Store(order: seq<CacheKey>, entries: map<CacheKey, Entry>)

  const NOTHING: Store := Store([], map[])

  ghost predicate Listed(s: Store) {
    && (forall k :: k in s.order <==> k in s.entries)
    && (forall i, j :: 0 <= i < j < |s.order| ==> s.order[i] != s.order[j])
  }

  function Without(order: seq<CacheKey>, key: CacheKey): (left: seq<CacheKey>)
    ensures forall k :: k in left <==> k in order && k != key
    ensures |left| <= |order|
  {
    if order == [] then []
    else (if order[0] == key then [] else [order[0]]) + Without(order[1..], key)
  }

  lemma {:induction false} WithoutStaysDistinct(order: seq<CacheKey>, key: CacheKey)
    requires forall i, j :: 0 <= i < j < |order| ==> order[i] != order[j]
    ensures var left := Without(order, key); forall i, j :: 0 <= i < j < |left| ==> left[i] != left[j]
    ensures key !in order ==> Without(order, key) == order
    ensures key in order ==> |Without(order, key)| == |order| - 1
  {
    if order != [] {
      var rest := order[1..];
      WithoutStaysDistinct(rest, key);
      assert order[0] !in rest;
      if order[0] == key {
        assert Without(order, key) == Without(rest, key) == rest;
      } else {
        assert Without(order, key) == [order[0]] + Without(rest, key);
      }
    }
  }

  /** `move_to_end`. */
  function Touched(s: Store, key: CacheKey): Store
    requires key in s.entries
  {
    s.(order := Without(s.order, key) + [key])
  }

  /** `pop`. */
  function Dropped(s: Store, key: CacheKey): Store {
    Store(Without(s.order, key), s.entries - {key})
  }

  /** `_store[key] = entry`: a key already there keeps its place. */
  function Stored(s: Store, key: CacheKey, e: Entry): Store {
    Store(if key in s.entries then s.order else s.order + [key], s.entries[key := e])
  }

  /** The eviction loop: the least recently used go first. */
  function Evicted(s: Store, max: nat): Store
    decreases |s.order|
  {
    if |s.order| <= max then s
    else Evicted(Store(s.order[1..], s.entries - {s.order[0]}), max)
  }

  lemma {:induction false} EvictionKeepsNewest(s: Store, max: nat)
    requires Listed(s)
    ensures var e := Evicted(s, max);
            && Listed(e) && |e.order| <= max
            && e.order == s.order[|s.order| - |e.order|..] && |e.order| == Min(|s.order|, max)
            && forall k :: k in e.entries ==> k in s.entries && e.entries[k] == s.entries[k]
    decreases |s.order|
  {
    if |s.order| > max {
      var t := Store(s.order[1..], s.entries - {s.order[0]});
      assert s.order == [s.order[0]] + t.order;
      EvictionKeepsNewest(t, max);
    }
  }

  lemma {:induction false} StoredStaysListed(s: Store, key: CacheKey, e: Entry)
    requires Listed(s)
    ensures Listed(Stored(s, key, e))
  {
  }

  lemma {:induction false} TouchedStaysListed(s: Store, key: CacheKey)
    requires Listed(s) && key in s.entries
    ensures Listed(Touched(s, key)) && |Touched(s, key).order| == |s.order|
  {
    WithoutStaysDistinct(s.order, key);
    hide Without;
  }

  lemma {:induction false} DroppedStaysListed(s: Store, key: CacheKey)
    requires Listed(s)
    ensures Listed(Dropped(s, key)) && |Dropped(s, key).order| <= |s.order|
  {
    WithoutStaysDistinct(s.order, key);
    hide Without;
  }

  lemma {:induction false} StoreStaysListed(s: Store, key: CacheKey, e: Entry)
    requires Listed(s)
    ensures Listed(Stored(s, key, e)) && Listed(Dropped(s, key))
    ensures key in s.entries ==> Listed(Touched(s, key)) && |Touched(s, key).order| == |s.order|
    ensures |Dropped(s, key).order| <= |s.order|
  {
    hide Listed, Touched, Stored, Dropped;
    StoredStaysListed(s, key, e);
    DroppedStaysListed(s, key);
    if key in s.entries {
      TouchedStaysListed(s, key);
    }
  }

  // ---- Lookups ----

  datatype Answer = Hit(msg: Msg, stale: bool) | Miss

  /** What the local store says, before the shared memory is asked. */
  function LocalGet(cfg: Config, s: Store, key: CacheKey, allowStale: bool, now: real): (Store, Answer) {
    if key !in s.entries then (s, Miss)
    else
      var e := s.entries[key];
      var remaining := e.ttl - (now - e.inserted);
      if remaining > 0.0 then (Touched(s, key), Hit(Retimed(e.msg, Floor(remaining)), false))
      else if cfg.serveStale && now < e.staleUntil then
        (if allowStale then (Touched(s, key), Hit(Retimed(e.msg, STALE_TTL), true)) else (s, Miss))
      else (Dropped(s, key), Miss)
  }

  /** An answer of the shared memory, promoted into the local store. */
  function Promoted(cfg: Config, s: Store, key: CacheKey, msg: Msg, remaining: real, now: real): Store {
    Evicted(Stored(s, key, Entry(msg, now, remaining, now + remaining + cfg.staleMax as real)), cfg.maxEntries)
  }

  /** `get`; `shared` is what the shared memory holds for the key, `parse` reads a message. */
  function GetResult(cfg: Config, s: Store, key: CacheKey, allowStale: bool, now: real,
                     shared: Option<(seq<byte>, real)>, parse: seq<byte> -> Option<Msg>): (Store, Answer)
  {
    if !cfg.enabled then (s, Miss)
    else
      var (s', local) := LocalGet(cfg, s, key, allowStale, now);
      if local.Hit? || shared.None? || parse(shared.value.0).None? then (s', local)
      else
        var (wire, remaining) := shared.value;
        (Promoted(cfg, s', key, parse(wire).value, remaining, now), Hit(Retimed(parse(wire).value, Floor(remaining)), false))
  }

  /** A failure, and an answer that says not to be kept, are not stored. */
  predicate Keeps(cfg: Config, msg: Msg) {
    cfg.enabled && Cacheable(msg) && !(DeriveTtl(cfg, msg) <= 0 && msg.rcode == RCODE_NOERROR && msg.answers != [])
  }

  /** `put` on the local store. */
  function PutResult(cfg: Config, s: Store, key: CacheKey, msg: Msg, now: real): Store {
    if !Keeps(cfg, msg) then s
    else
      Evicted(Touched(Stored(s, key, NewEntry(cfg, msg, now)), key), cfg.maxEntries)
  }

  function NewEntry(cfg: Config, msg: Msg, now: real): Entry {
    var ttl := DeriveTtl(cfg, msg) as real;
    Entry(msg, now, ttl, now + ttl + cfg.staleMax as real)
  }

  class Cache {
    const cfg: Config
    var order: seq<CacheKey>
    var entries: map<CacheKey, Entry>

    function Contents(): Store
      reads this
    {
      Store(order, entries)
    }

    constructor (cfg: Config)
      ensures this.cfg == cfg && Contents() == NOTHING
    {
      this.cfg, order, entries := cfg, [], map[];
    }

    method Evict()
      modifies this
      ensures Contents() == Evicted(old(Contents()), cfg.maxEntries)
    {
      while |order| > cfg.maxEntries
        invariant Evicted(Contents(), cfg.maxEntries) == Evicted(old(Contents()), cfg.maxEntries)
        decreases |order|
      {
        entries := entries - {order[0]};
        order := order[1..];
      }
    }

    /** `get`. */
    method Get(key: CacheKey, allowStale: bool, now: real, shared: Option<(seq<byte>, real)>,
               parse: seq<byte> -> Option<Msg>) returns (r: Answer)
      modifies this
      ensures (Contents(), r) == GetResult(cfg, old(Contents()), key, allowStale, now, shared, parse)
      ensures GotRight(cfg, old(Contents()), key, allowStale, now, shared, parse, r)
    {
      hide Evicted, Without, Retimed, Floor, GotRight;
      GetShows(cfg, Contents(), key, allowStale, now, shared, parse);
      if !cfg.enabled {
        return Miss;
      }
      if key in entries {
        var entry := entries[key];
        var remaining := entry.ttl - (now - entry.inserted);
        if remaining > 0.0 {
          order := Without(order, key) + [key];
          return Hit(Retimed(entry.msg, Floor(remaining)), false);
        }
        if cfg.serveStale && now < entry.staleUntil {
          if allowStale {
            order := Without(order, key) + [key];
            return Hit(Retimed(entry.msg, STALE_TTL), true);
          }
        } else {
          order, entries := Without(order, key), entries - {key};
        }
      }
      r := SharedGet(key, now, shared, parse);
    }

    /** `_shared_get`. */
    method SharedGet(key: CacheKey, now: real, shared: Option<(seq<byte>, real)>, parse: seq<byte> -> Option<Msg>)
      returns (r: Answer)
      modifies this
      ensures if shared.None? || parse(shared.value.0).None? then r == Miss && Contents() == old(Contents())
              else
                var msg, remaining := parse(shared.value.0).value, shared.value.1;
                r == Hit(Retimed(msg, Floor(remaining)), false)
                && Contents() == Promoted(cfg, old(Contents()), key, msg, remaining, now)
    {
      if shared.None? {
        return Miss;
      }
      var (wire, remaining) := shared.value;
      var msg := parse(wire);
      if msg.None? {
        return Miss;
      }
      if key !in entries {
        order := order + [key];
      }
      entries := entries[key := Entry(msg.value, now, remaining, now + remaining + cfg.staleMax as real)];
      Evict();
      return Hit(Retimed(msg.value, Floor(remaining)), false);
    }

    /** `put`; `write` is the TTL to write through to the shared memory, if any. */
    method Put(key: CacheKey, msg: Msg, now: real) returns (write: Option<int>)
      modifies this
      ensures Contents() == PutResult(cfg, old(Contents()), key, msg, now)
      ensures write == if Keeps(cfg, msg) then Some(DeriveTtl(cfg, msg)) else None
    {
      hide DeriveTtl, Without;
      if !cfg.enabled || !Cacheable(msg) {
        return None;
      }
      var ttl := DeriveTtl(cfg, msg);
      if ttl <= 0 && msg.rcode == RCODE_NOERROR && msg.answers != [] {
        return None;
      }
      if key !in entries {
        order := order + [key];
      }
      entries := entries[key := Entry(msg, now, ttl as real, now + ttl as real + cfg.staleMax as real)];
      order := Without(order, key) + [key];
      Evict();
      return Some(ttl);
    }

    /** `flush` of everything. */
    method Flush() returns (n: nat)
      modifies this
      ensures Contents() == NOTHING && n == |old(entries)|
    {
      n := |entries|;
      order, entries := [], map[];
    }
  }

  // ---- What one operation keeps ----

  /** The store never holds more than its limit. */
  ghost predicate Bounded(cfg: Config, s: Store) {
    Listed(s) && |s.order| <= cfg.maxEntries
  }

  lemma {:induction false} GetStaysBounded(cfg: Config, s: Store, key: CacheKey, allowStale: bool, now: real,
                                           shared: Option<(seq<byte>, real)>, parse: seq<byte> -> Option<Msg>)
    requires Bounded(cfg, s)
    ensures Bounded(cfg, GetResult(cfg, s, key, allowStale, now, shared, parse).0)
  {
    hide Evicted, Without, Retimed, Floor, Stored, Dropped, Touched;
    var s' := LocalGet(cfg, s, key, allowStale, now).0;
    LocalStaysBounded(cfg, s, key, allowStale, now);
    if shared.Some? && parse(shared.value.0).Some? {
      var e := Entry(parse(shared.value.0).value, now, shared.value.1, now + shared.value.1 + cfg.staleMax as real);
      StoreStaysListed(s', key, e);
      EvictionKeepsNewest(Stored(s', key, e), cfg.maxEntries);
    }
  }

  lemma {:induction false} LocalStaysBounded(cfg: Config, s: Store, key: CacheKey, allowStale: bool, now: real)
    requires Bounded(cfg, s)
    ensures Bounded(cfg, LocalGet(cfg, s, key, allowStale, now).0)
  {
    hide Evicted, Without, Retimed, Floor, Stored, Dropped, Touched;
    StoreStaysListed(s, key, Entry(Msg(0, [], [], [], ""), 0.0, 0.0, 0.0));
  }

  lemma {:induction false} PutStaysBounded(cfg: Config, s: Store, key: CacheKey, msg: Msg, now: real)
    requires Bounded(cfg, s)
    ensures Bounded(cfg, PutResult(cfg, s, key, msg, now))
  {
    hide Evicted, Keeps, NewEntry, Listed, Stored, Touched;
    if Keeps(cfg, msg) {
      var e := NewEntry(cfg, msg, now);
      StoreStaysListed(s, key, e);
      StoredHas(s, key, e);
      StoreStaysListed(Stored(s, key, e), key, e);
      EvictionKeepsNewest(Touched(Stored(s, key, e), key), cfg.maxEntries);
    }
  }

  lemma {:induction false} StoredHas(s: Store, key: CacheKey, e: Entry)
    ensures key in Stored(s, key, e).entries && Stored(s, key, e).entries[key] == e
    ensures forall k :: k != key ==> (k in Stored(s, key, e).entries <==> k in s.entries)
    ensures forall k :: k != key && k in s.entries ==> Stored(s, key, e).entries[k] == s.entries[k]
  {
  }

  /** A failure never replaces a retained answer, and does not make it colder. */
  lemma {:induction false} FailureChangesNothing(cfg: Config, s: Store, key: CacheKey, msg: Msg, now: real)
    requires msg.rcode != 0 && msg.rcode != 3
    ensures PutResult(cfg, s, key, msg, now) == s
  {
  }

  /** A put answer is there afterwards, as the one used last, unless the cache holds nothing at all. */
  lemma {:induction false} PutIsLast(cfg: Config, s: Store, key: CacheKey, msg: Msg, now: real)
    requires Bounded(cfg, s) && Keeps(cfg, msg) && cfg.maxEntries > 0
    ensures var s' := PutResult(cfg, s, key, msg, now);
            && s'.order != [] && s'.order[|s'.order| - 1] == key && key in s'.entries
            && s'.entries[key].msg == msg && s'.entries[key].Deadline() == now + DeriveTtl(cfg, msg) as real
  {
    hide Evicted, DeriveTtl, Keeps, Without, Stored;
    var e := NewEntry(cfg, msg, now);
    StoreStaysListed(s, key, e);
    StoredHas(s, key, e);
    StoreStaysListed(Stored(s, key, e), key, e);
    var t := Touched(Stored(s, key, e), key);
    EvictionKeepsNewest(t, cfg.maxEntries);
    var s' := Evicted(t, cfg.maxEntries);
    assert t.order[|t.order| - 1] == key;
    assert s'.order[|s'.order| - 1] in s'.order;
  }

  /** And until that deadline it is what a lookup answers: every answer of success or of
    * no such name, whatever it holds. */
  lemma {:induction false} PutIsServed(cfg: Config, s: Store, key: CacheKey, msg: Msg, now: real, later: real,
                                       allowStale: bool, shared: Option<(seq<byte>, real)>, parse: seq<byte> -> Option<Msg>)
    requires Bounded(cfg, s) && cfg.enabled && cfg.maxEntries > 0 && (msg.rcode == 0 || msg.rcode == 3)
    requires now <= later < now + DeriveTtl(cfg, msg) as real
    ensures FreshHit(GetResult(cfg, PutResult(cfg, s, key, msg, now), key, allowStale, later, shared, parse).1, msg,
                     now + DeriveTtl(cfg, msg) as real - later)
  {
    assert Keeps(cfg, msg);
    hide PutResult, DeriveTtl, GetResult, FreshHit, Keeps;
    PutIsLast(cfg, s, key, msg, now);
    GetShows(cfg, PutResult(cfg, s, key, msg, now), key, allowStale, later, shared, parse);
  }

  /** After the deadline it is still there for those who accept a stale answer, for as
    * long as the grace says, and for nobody else. */
  lemma {:induction false} PutIsServedStale(cfg: Config, s: Store, key: CacheKey, msg: Msg, now: real, later: real,
                                            allowStale: bool, parse: seq<byte> -> Option<Msg>)
    requires Bounded(cfg, s) && cfg.enabled && cfg.maxEntries > 0 && (msg.rcode == 0 || msg.rcode == 3)
    requires DeriveTtl(cfg, msg) > 0 && later >= now + DeriveTtl(cfg, msg) as real
    ensures var r := GetResult(cfg, PutResult(cfg, s, key, msg, now), key, allowStale, later, None, parse).1;
            if allowStale && cfg.serveStale && later < now + DeriveTtl(cfg, msg) as real + cfg.staleMax as real
            then StaleHit(r, msg) else r == Miss
  {
    assert Keeps(cfg, msg);
    PutHasGrace(cfg, s, key, msg, now);
    hide PutResult, DeriveTtl, GetResult, StaleHit, Keeps, FreshHit;
    PutIsLast(cfg, s, key, msg, now);
    GetShows(cfg, PutResult(cfg, s, key, msg, now), key, allowStale, later, None, parse);
  }

  lemma {:induction false} PutHasGrace(cfg: Config, s: Store, key: CacheKey, msg: Msg, now: real)
    requires Bounded(cfg, s) && Keeps(cfg, msg) && cfg.maxEntries > 0
    ensures var s' := PutResult(cfg, s, key, msg, now);
            key in s'.entries && s'.entries[key].staleUntil == s'.entries[key].Deadline() + cfg.staleMax as real
  {
    hide Evicted, DeriveTtl, Keeps, Without, Stored;
    var e := NewEntry(cfg, msg, now);
    PutIsLast(cfg, s, key, msg, now);
    StoreStaysListed(s, key, e);
    StoredHas(s, key, e);
    StoreStaysListed(Stored(s, key, e), key, e);
    EvictionKeepsNewest(Touched(Stored(s, key, e), key), cfg.maxEntries);
  }

  /** Nothing else is kept: a failure, and an answer of success with records and without
    * any time to live, leave the store as it was. */
  lemma {:induction false} NotKeptIsNotServed(cfg: Config, s: Store, key: CacheKey, msg: Msg, now: real)
    ensures PutResult(cfg, s, key, msg, now) == s <== !cfg.enabled || (msg.rcode != 0 && msg.rcode != 3)
                                                      || (msg.rcode == 0 && msg.answers != [] && DeriveTtl(cfg, msg) <= 0)
  {
    hide Evicted, Touched, Stored, DeriveTtl;
  }
}
