// The replay table of the fast path (engine/fastpath.py, class FastPath) over
// whole runs of store, serve and clear.

module FastTable {
  import opened Wrappers
  import opened Bytes
  import opened FastWire
  import opened FastReplay

  type Policy = string
  type Key = seq<byte>

  /** One reply recorded since the last clear, and where it went. */
  datatype Event = Event(key: Key, entry: WireAnswer, policy: Option<Policy>, query: seq<byte>, blob: seq<byte>,
                         at: real, cookies: bool)

  // ---- Policy tags ----

  predicate Known(ids: map<Policy, Key>, policy: Option<Policy>) {
    policy.None? || policy.value in ids
  }

  function Tag(ids: map<Policy, Key>, policy: Option<Policy>): Key
    requires Known(ids, policy)
  {
    if policy.None? then [0, 0] else ids[policy.value]
  }

  /** Every tag is the number of some policy, and no two policies share one. */
  ghost predicate Numbered(ids: map<Policy, Key>) {
    && |ids| < 0x1_0000
    && (forall p :: p in ids ==> |ids[p]| == 2 && 1 <= FromU16(ids[p], 0) <= |ids|)
    && (forall p, q :: p in ids && q in ids && p != q ==> ids[p] != ids[q])
  }

  lemma {:induction false} NumberNext(ids: map<Policy, Key>, p: Policy)
    requires Numbered(ids) && p !in ids && |ids| < 0xFFFF
    ensures Numbered(ids[p := U16(|ids| + 1)])
  {
    assert ids[p := U16(|ids| + 1)].Keys == ids.Keys + {p};
    U16RoundTrip(|ids| + 1);
  }

  /** Fewer than 65,536 policies get distinct tags. */
  lemma {:induction false} TagsTellPoliciesApart(ids: map<Policy, Key>, p: Option<Policy>, q: Option<Policy>)
    requires Numbered(ids) && Known(ids, p) && Known(ids, q)
    ensures |Tag(ids, p)| == |Tag(ids, q)| == 2
    ensures Tag(ids, p) == Tag(ids, q) <==> p == q
  {
    assert FromU16([0, 0], 0) == 0;
  }

  lemma {:induction false} SplitTail(a: Key, s: Key, b: Key, t: Key)
    requires |s| == |t|
    ensures a + s == b + t <==> a == b && s == t
  {
    if a + s == b + t {
      assert (a + s)[..|a|] == a && (b + t)[..|a|] == b;
      assert (a + s)[|a|..] == s && (b + t)[|a|..] == t;
    }
  }

  // ---- The table and its history ----

  /** Event `j` is the newest under its key. */
  ghost predicate Newest(log: seq<Event>, j: nat) {
    j < |log| && forall i :: j < i < |log| ==> log[i].key != log[j].key
  }

  ghost predicate Holds(table: map<Key, WireAnswer>, log: seq<Event>, key: Key, j: nat) {
    Newest(log, j) && log[j].key == key && key in table && table[key] == log[j].entry
  }

  /** Every entry is that of the newest event under its key. */
  ghost predicate Backed(table: map<Key, WireAnswer>, log: seq<Event>) {
    forall key :: key in table ==> exists j :: Holds(table, log, key, j)
  }

  /** An event that `store` lets into the table. */
  ghost predicate Genuine(e: Event, ids: map<Policy, Key>, clock: real) {
    && QueryKey(e.query).Some? && Known(ids, e.policy) && e.at <= clock
    && e.key == QueryKey(e.query).value.0 + Tag(ids, e.policy)
    && Recording(e.query, e.blob, e.at, e.cookies) == Some(e.entry) && Echoes(e.query, e.blob)
  }

  ghost predicate AllGenuine(log: seq<Event>, ids: map<Policy, Key>, clock: real) {
    forall j :: 0 <= j < |log| ==> Genuine(log[j], ids, clock)
  }

  lemma {:induction false} TimePasses(log: seq<Event>, ids: map<Policy, Key>, clock: real, now: real)
    requires AllGenuine(log, ids, clock) && clock <= now
    ensures AllGenuine(log, ids, now)
  {
    forall j | 0 <= j < |log|
      ensures Genuine(log[j], ids, now)
    {
      assert Genuine(log[j], ids, clock);
    }
  }

  lemma {:induction false} TagsStay(log: seq<Event>, ids: map<Policy, Key>, p: Policy, tag: Key, clock: real)
    requires AllGenuine(log, ids, clock) && p !in ids
    ensures AllGenuine(log, ids[p := tag], clock)
  {
    forall j | 0 <= j < |log|
      ensures Genuine(log[j], ids[p := tag], clock)
    {
      assert Genuine(log[j], ids, clock);
    }
  }

  lemma {:induction false} OneMoreGenuine(log: seq<Event>, e: Event, ids: map<Policy, Key>, clock: real)
    requires AllGenuine(log, ids, clock) && Genuine(e, ids, clock)
    ensures AllGenuine(log + [e], ids, clock)
  {
    forall j | 0 <= j < |log + [e]|
      ensures Genuine((log + [e])[j], ids, clock)
    {
      if j < |log| {
        assert (log + [e])[j] == log[j];
      }
    }
  }

  /** `order` lists the keys of the table, once each. */
  ghost predicate Listed(order: seq<Key>, table: map<Key, WireAnswer>) {
    && (forall k :: k in order <==> k in table)
    && (forall i, j :: 0 <= i < j < |order| ==> order[i] != order[j])
  }

  function Only(table: map<Key, WireAnswer>, order: seq<Key>): map<Key, WireAnswer> {
    map k | k in table && k in order :: table[k]
  }

  /** What the eviction loop leaves: the newest `max - 1` keys, none for max < 1. */
  function Kept(order: seq<Key>, max: int): (kept: seq<Key>)
    ensures |kept| <= |order| && kept == order[|order| - |kept|..]
    ensures |kept| < (if max < 1 then 1 else max)
  {
    if max <= 1 then []
    else if |order| < max then order
    else order[|order| - (max - 1)..]
  }

  lemma {:induction false} EvictOldest(order: seq<Key>, table: map<Key, WireAnswer>)
    requires Listed(order, table) && order != []
    ensures Listed(order[1..], table - {order[0]})
    ensures table - {order[0]} == Only(table, order[1..])
  {
    assert order == [order[0]] + order[1..];
  }

  lemma {:induction false} OnlyOnly(table: map<Key, WireAnswer>, order: seq<Key>)
    requires order != []
    ensures Only(Only(table, order), order[1..]) == Only(table, order[1..])
  {
    assert forall k :: k in order[1..] ==> k in order;
  }

  /** The eviction loop: the oldest of `from` are gone, and no more than had to go. */
  ghost predicate Evicting(all: map<Key, WireAnswer>, from: seq<Key>, order: seq<Key>, table: map<Key, WireAnswer>, max: int) {
    && Listed(order, table) && |order| <= |from| && order == from[|from| - |order|..]
    && table == Only(all, order)
    && (|order| < |from| ==> max <= |order| + 1)
  }

  lemma {:induction false} EvictionStarts(table: map<Key, WireAnswer>, order: seq<Key>, max: int)
    requires Listed(order, table)
    ensures Evicting(table, order, order, table, max)
  {
    OnlyAll(table, order);
    TailOfAll(order);
  }

  lemma {:induction false} EvictionGoesOn(all: map<Key, WireAnswer>, from: seq<Key>, order: seq<Key>,
                                          table: map<Key, WireAnswer>, max: int)
    requires Evicting(all, from, order, table, max) && order != [] && |order| >= max
    ensures Evicting(all, from, order[1..], table - {order[0]}, max)
  {
    hide Listed, Only;
    EvictOldest(order, table);
    OnlyOnly(all, order);
    TailOfTail(from, order);
  }

  lemma {:induction false} EvictionEnds(all: map<Key, WireAnswer>, from: seq<Key>, order: seq<Key>,
                                        table: map<Key, WireAnswer>, max: int)
    requires Evicting(all, from, order, table, max) && (order == [] || |order| < max)
    ensures Listed(order, table) && order == Kept(from, max) && table == Only(all, order)
  {
    KeptIs(from, max, order);
  }

  lemma {:induction false} TailOfAll(order: seq<Key>)
    ensures order == order[|order| - |order|..]
  {
  }

  lemma {:induction false} TailOfTail(from: seq<Key>, order: seq<Key>)
    requires order != [] && |order| <= |from| && order == from[|from| - |order|..]
    ensures order[1..] == from[|from| - |order[1..]|..]
  {
  }

  lemma {:induction false} KeptIs(order: seq<Key>, max: int, left: seq<Key>)
    requires |left| <= |order| && left == order[|order| - |left|..]
    requires left == [] || |left| < max
    requires |left| < |order| ==> max <= |left| + 1
    ensures left == Kept(order, max)
  {
  }

  lemma {:induction false} OnlyAll(table: map<Key, WireAnswer>, order: seq<Key>)
    requires Listed(order, table)
    ensures Only(table, order) == table
  {
  }

  lemma {:induction false} EvictionKeepsBacked(table: map<Key, WireAnswer>, log: seq<Event>, order: seq<Key>)
    requires Backed(table, log)
    ensures Backed(Only(table, order), log)
  {
    var left := Only(table, order);
    forall key | key in left
      ensures exists j :: Holds(left, log, key, j)
    {
      var j :| Holds(table, log, key, j);
      assert Holds(left, log, key, j);
    }
  }

  lemma {:induction false} InsertKeepsBacked(table: map<Key, WireAnswer>, log: seq<Event>, e: Event)
    requires Backed(table, log)
    ensures Backed(table[e.key := e.entry], log + [e])
  {
    var table', log' := table[e.key := e.entry], log + [e];
    forall key | key in table'
      ensures exists j :: Holds(table', log', key, j)
    {
      if key == e.key {
        assert Holds(table', log', key, |log|);
      } else {
        var j :| Holds(table, log, key, j);
        assert Holds(table', log', key, j);
      }
    }
  }

  // ---- What a hit means ----

  /** Of all events for this policy and this query, `j` is the last. */
  ghost predicate LastFor(log: seq<Event>, j: nat, policy: Option<Policy>, data: seq<byte>, qend: nat) {
    && j < |log| && log[j].policy == policy && SameQuery(log[j].query, data, qend)
    && forall i :: j < i < |log| ==> !(log[i].policy == policy && SameQuery(log[i].query, data, qend))
  }

  lemma {:induction false} LastFacts(log: seq<Event>, j: nat, policy: Option<Policy>, data: seq<byte>, qend: nat)
    requires LastFor(log, j, policy, data, qend)
    ensures j < |log| && log[j].policy == policy && SameQuery(log[j].query, data, qend)
  {
  }

  /** Being newest under the table's key is being last for the policy and query. */
  lemma {:induction false} NewestIsLast(log: seq<Event>, j: nat, ids: map<Policy, Key>, clock: real,
                                        policy: Option<Policy>, data: seq<byte>)
    requires AllGenuine(log, ids, clock) && Numbered(ids) && Known(ids, policy) && QueryKey(data).Some?
    requires Newest(log, j) && log[j].key == QueryKey(data).value.0 + Tag(ids, policy)
    ensures LastFor(log, j, policy, data, QueryKey(data).value.1)
    ensures QueryKey(log[j].query).value.1 == QueryKey(data).value.1
  {
    SameKeySameQuery(log[j], ids, clock, policy, data);
    forall i | j < i < |log|
      ensures !(log[i].policy == policy && SameQuery(log[i].query, data, QueryKey(data).value.1))
    {
      SameKeySameQuery(log[i], ids, clock, policy, data);
    }
  }

  lemma {:induction false} SameKeySameQuery(e: Event, ids: map<Policy, Key>, clock: real,
                                            policy: Option<Policy>, data: seq<byte>)
    requires Genuine(e, ids, clock) && Numbered(ids) && Known(ids, policy) && QueryKey(data).Some?
    ensures var qend := QueryKey(data).value.1;
            e.key == QueryKey(data).value.0 + Tag(ids, policy) <==> e.policy == policy && SameQuery(e.query, data, qend)
    ensures e.key == QueryKey(data).value.0 + Tag(ids, policy) ==> QueryKey(e.query).value.1 == QueryKey(data).value.1
  {
    TagsTellPoliciesApart(ids, e.policy, policy);
    SplitTail(QueryKey(e.query).value.0, Tag(ids, e.policy), QueryKey(data).value.0, Tag(ids, policy));
    KeyIdentifiesQuery(data, e.query);
    SameQueryFlips(data, e.query, QueryKey(data).value.1);
  }

  lemma {:induction false} SameQueryFlips(a: seq<byte>, b: seq<byte>, end: nat)
    ensures SameQuery(a, b, end) <==> SameQuery(b, a, end)
  {
  }

  /** `out` answers `data`: it is the last reply recorded for this policy and
    * query, not yet as old as its smallest TTL, patched as Replay says. */
  ghost predicate IsReplayOf(log: seq<Event>, j: nat, data: seq<byte>, policy: Option<Policy>, now: real,
                             make: Option<seq<byte> -> seq<byte>>, out: seq<byte>)
  {
    && QueryKey(data).Some? && LastFor(log, j, policy, data, QueryKey(data).value.1)
    && var e := Recording(log[j].query, log[j].blob, log[j].at, log[j].cookies);
       && e.Some? && Sound(e.value) && e.value.qend == QueryKey(data).value.1
       && 0.0 <= now - log[j].at < e.value.baseTtl as real
       && Cookied(e.value, data, make)
       && out == Replay(e.value, data, now - log[j].at, CookieFor(e.value, data, make))
  }

  ghost predicate Cookied(e: WireAnswer, data: seq<byte>, make: Option<seq<byte> -> seq<byte>>) {
    && (e.cookie.Some? ==> EdnsOption(data, OPTION_COOKIE).Some? && e.cookie.value.1 + 8 <= |data|
                           && e.cookie.value.1 == EdnsOption(data, OPTION_COOKIE).value.0)
    && (e.cookie.Some? && make.Some? ==> |CookieFor(e, data, make).value| == 16)
  }

  /** The server cookie for the client cookie of this very query. */
  function CookieFor(e: WireAnswer, data: seq<byte>, make: Option<seq<byte> -> seq<byte>>): Option<seq<byte>>
    requires e.cookie.Some? ==> e.cookie.value.1 + 8 <= |data|
  {
    if e.cookie.Some? && make.Some? then Some(make.value(data[e.cookie.value.1..e.cookie.value.1 + 8])) else None
  }

  /** What a hit says about the query that hit. */
  lemma {:induction false} HitIsGood(e: Event, ids: map<Policy, Key>, clock: real, data: seq<byte>, qend: nat)
    requires Genuine(e, ids, clock) && QueryKey(data).Some? && qend == QueryKey(data).value.1
    requires SameQuery(e.query, data, qend) && QueryKey(e.query).value.1 == qend
    ensures Sound(e.entry) && e.entry.qend == qend && e.entry.inserted == e.at && e.entry.blob == e.blob
    ensures forall i :: 12 <= i < qend ==> LowerByte(data[i]) == LowerByte(e.blob[i])
    ensures e.entry.cookie.Some? ==> EdnsOption(data, OPTION_COOKIE).Some? && e.entry.cookie.value.1 + 8 <= |data|
                                     && e.entry.cookie.value.1 == EdnsOption(data, OPTION_COOKIE).value.0
  {
    RecordingIsSound(e.query, e.blob, e.at, e.cookies);
    if e.entry.cookie.Some? {
      CookieStaysPut(e.query, data, OPTION_COOKIE);
      OptionInside(data, OPTION_COOKIE);
    }
  }

  /** The structure of a hit is that of the recorded reply: same fields, same options. */
  lemma {:induction false} HitHasRecordedStructure(log: seq<Event>, j: nat, ids: map<Policy, Key>, clock: real, data: seq<byte>,
      policy: Option<Policy>, now: real, make: Option<seq<byte> -> seq<byte>>, out: seq<byte>, code: nat)
    requires AllGenuine(log, ids, clock) && IsReplayOf(log, j, data, policy, now, make, out)
    ensures Patched(log[j].blob, out, QueryKey(data).value.1)
    ensures TtlOffsets(out) == TtlOffsets(log[j].blob) && EdnsOption(out, code) == EdnsOption(log[j].blob, code)
  {
    hide Recording, Replay, Patched, TtlOffsets, EdnsOption, QueryKey, SameQuery, Sound;
    var e := log[j].entry;
    assert Genuine(log[j], ids, clock);
    QueryEnds(log[j].query, data);
    HitIsGood(log[j], ids, clock, data, QueryKey(data).value.1);
    ReplayIsPatch(e, data, now - log[j].at, CookieFor(e, data, make));
    PatchPreservesStructure(log[j].blob, out, QueryKey(data).value.1, code);
  }

  lemma {:induction false} QueryEnds(a: seq<byte>, b: seq<byte>)
    requires QueryKey(a).Some? && QueryKey(b).Some? && SameQuery(a, b, QueryKey(b).value.1)
    ensures QueryKey(a).value.1 == QueryKey(b).value.1
  {
    SameQueryFlips(a, b, QueryKey(b).value.1);
    KeyIdentifiesQuery(b, a);
  }

  /** The event behind the entry that a query hits. */
  lemma {:induction false} Explain(table: map<Key, WireAnswer>, log: seq<Event>, ids: map<Policy, Key>, key: Key,
      data: seq<byte>, policy: Option<Policy>, now: real, make: Option<seq<byte> -> seq<byte>>)
    returns (j: nat)
    requires Backed(table, log) && AllGenuine(log, ids, now) && Numbered(ids)
    requires QueryKey(data).Some? && Known(ids, policy) && key in table
    requires key == QueryKey(data).value.0 + Tag(ids, policy)
    requires make.Some? ==> forall c: seq<byte> :: |c| == 8 ==> |make.value(c)| == 16
    requires now - table[key].inserted < table[key].baseTtl as real
    ensures Servable(table[key], data, now, make)
    ensures IsReplayOf(log, j, data, policy, now, make, Served(table[key], data, now, make))
  {
    hide Listed, Numbered, Sound, Recording, Replay, QueryKey, EdnsOption, LastFor, Echoes;
    j :| Holds(table, log, key, j);
    assert Genuine(log[j], ids, now);
    NewestIsLast(log, j, ids, now, policy, data);
    LastFacts(log, j, policy, data, QueryKey(data).value.1);
    HitIsGood(log[j], ids, now, data, QueryKey(data).value.1);
  }

  ghost predicate Servable(e: WireAnswer, data: seq<byte>, now: real, make: Option<seq<byte> -> seq<byte>>) {
    && Sound(e) && e.qend <= |data| && e.inserted <= now
    && (e.cookie.Some? ==> e.cookie.value.1 + 8 <= |data|)
    && (CookieFor(e, data, make).Some? ==> |CookieFor(e, data, make).value| == 16)
  }

  ghost function Served(e: WireAnswer, data: seq<byte>, now: real, make: Option<seq<byte> -> seq<byte>>): seq<byte>
    requires Servable(e, data, now, make)
  {
    Replay(e, data, now - e.inserted, CookieFor(e, data, make))
  }

  class FastPath {
    const maxEntries: int
    var order: seq<Key>             // the keys of the table, oldest first
    var table: map<Key, WireAnswer>
    var policyIds: map<Policy, Key>
    var hits: nat
    var stores: nat
    ghost var log: seq<Event>
    ghost var clock: real

    ghost predicate Valid()
      reads this
    {
      && Listed(order, table) && |order| <= (if maxEntries < 1 then 1 else maxEntries)
      && Numbered(policyIds) && Backed(table, log) && AllGenuine(log, policyIds, clock)
    }

    constructor (maxEntries: int)
      ensures Valid() && table == map[] && log == [] && policyIds == map[] && clock == 0.0
      ensures this.maxEntries == maxEntries
    {
      this.maxEntries := maxEntries;
      order, table, policyIds, hits, stores := [], map[], map[], 0, 0;
      log, clock := [], 0.0;
    }

    /** `_policy_tag`. */
    method PolicyTag(policy: Option<Policy>) returns (tag: Key)
      requires Valid() && (Known(policyIds, policy) || |policyIds| < 0xFFFF)
      modifies `policyIds
      ensures Valid() && Known(policyIds, policy) && tag == Tag(policyIds, policy)
      ensures policyIds == if Known(old(policyIds), policy) then old(policyIds)
                           else old(policyIds)[policy.value := U16(|old(policyIds)| + 1)]
    {
      if policy.None? {
        return [0, 0];
      }
      if policy.value !in policyIds {
        NumberNext(policyIds, policy.value);
        TagsStay(log, policyIds, policy.value, U16(|policyIds| + 1), clock);
        policyIds := policyIds[policy.value := U16(|policyIds| + 1)];
      }
      return policyIds[policy.value];
    }

    /** `serve`. `usable` is the gate before the lookup, `admitted` what the
      * gates behind it say (recursion ACL, rate limit, detectors); `make`
      * computes a server cookie from a client cookie. */
    method Serve(data: seq<byte>, policy: Option<Policy>, usable: bool, admitted: bool, now: real,
                 make: Option<seq<byte> -> seq<byte>>)
      returns (r: Option<seq<byte>>)
      requires Valid() && clock <= now && (Known(policyIds, policy) || |policyIds| < 0xFFFF)
      requires make.Some? ==> forall c: seq<byte> :: |c| == 8 ==> |make.value(c)| == 16
      modifies this
      ensures Valid() && order == old(order) && table == old(table) && log == old(log) && clock == now
      ensures hits == old(hits) + (if r.Some? then 1 else 0) && stores == old(stores)
      ensures r.Some? ==> exists j :: IsReplayOf(log, j, data, policy, now, make, r.value)
      ensures r.Some? <==> usable && admitted && QueryKey(data).Some? && Known(policyIds, policy)
                           && var key := QueryKey(data).value.0 + Tag(policyIds, policy);
                              key in table && now - table[key].inserted < table[key].baseTtl as real
    {
      hide Genuine, AllGenuine, Backed, Listed, Numbered, LastFor, Sound, Recording, Replay, QueryKey, EdnsOption, IsReplayOf, Cookied;
      TimePasses(log, policyIds, clock, now);
      clock := now;
      if !usable {
        return None;
      }
      var found := ComputeQueryKey(data);
      if found.None? {
        return None;
      }
      var (key, qend) := found.value;
      var tag := PolicyTag(policy);
      if key + tag !in table {
        return None;
      }
      var e := table[key + tag];
      var remaining := e.baseTtl as real - (now - e.inserted);
      if remaining <= 0.0 || !admitted {
        return None;
      }
      ghost var j := Explain(table, log, policyIds, key + tag, data, policy, now, make);
      var cookie := CookieFor(e, data, make);
      r := Some(Replay(e, data, e.baseTtl as real - remaining, cookie));
      hits := hits + 1;
    }

    /** The eviction loop of `store`: oldest first, until there is room. */
    method MakeRoom()
      requires Valid()
      modifies `order, `table
      ensures Valid() && order == Kept(old(order), maxEntries) && table == Only(old(table), order)
    {
      hide AllGenuine, Backed, Only, Listed, Kept, Evicting;
      ghost var all, from := table, order;
      EvictionStarts(table, order, maxEntries);
      while order != [] && |order| >= maxEntries
        invariant Evicting(all, from, order, table, maxEntries)
        decreases |order|
      {
        EvictionGoesOn(all, from, order, table, maxEntries);
        table := table - {order[0]};
        order := order[1..];
      }
      EvictionEnds(all, from, order, table, maxEntries);
      EvictionKeepsBacked(all, log, order);
    }

    /** `store`. `storable` is what the gates say about the outcome (usable, a
      * recordable action, not time dependent, a response at hand). The reply
      * repeats the question, as every reply the pipeline hands over does. */
    method Store(data: seq<byte>, blob: seq<byte>, policy: Option<Policy>, storable: bool, cookies: bool, now: real)
      requires Valid() && clock <= now && Echoes(data, blob) && (Known(policyIds, policy) || |policyIds| < 0xFFFF)
      modifies this
      ensures Valid() && clock == now && hits == old(hits)
      ensures var e := Recording(data, blob, now, cookies);
              if storable && e.Some? then
                && Known(policyIds, policy) && QueryKey(data).Some? && stores == old(stores) + 1
                && var key := QueryKey(data).value.0 + Tag(policyIds, policy);
                   && log == old(log) + [Event(key, e.value, policy, data, blob, now, cookies)]
                   && table == Only(old(table), Kept(old(order), maxEntries))[key := e.value]
                   && order == Kept(old(order), maxEntries) + (if key in Kept(old(order), maxEntries) then [] else [key])
              else
                log == old(log) && table == old(table) && order == old(order) && stores == old(stores)
    {
      hide AllGenuine, Backed, Listed, Numbered, Recording, QueryKey, Echoes, Kept, Only;
      TimePasses(log, policyIds, clock, now);
      clock := now;
      if !storable {
        return;
      }
      var entry := Record(data, blob, cookies, now);
      if entry.None? {
        return;
      }
      MakeRoom();
      var tag := PolicyTag(policy);
      Insert(Event(QueryKey(data).value.0 + tag, entry.value, policy, data, blob, now, cookies));
      stores := stores + 1;
    }

    /** `self.table[key] = entry`: a key already present keeps its place. */
    method Insert(e: Event)
      requires Valid() && |order| < (if maxEntries < 1 then 1 else maxEntries) && Genuine(e, policyIds, clock)
      modifies `order, `table, `log
      ensures Valid() && log == old(log) + [e] && table == old(table)[e.key := e.entry]
      ensures order == old(order) + if e.key in old(order) then [] else [e.key]
    {
      hide Genuine, AllGenuine, Backed;
      InsertKeepsBacked(table, log, e);
      OneMoreGenuine(log, e, policyIds, clock);
      if e.key !in table {
        order := order + [e.key];
      }
      table := table[e.key := e.entry];
      log := log + [e];
    }

    /** `clear`. */
    method Clear() returns (n: nat)
      requires Valid()
      modifies this
      ensures Valid() && table == map[] && log == [] && policyIds == map[] && clock == old(clock)
      ensures n == |old(order)|
    {
      n := |order|;
      order, table, policyIds := [], map[], map[];
      log := [];
    }
  }

  /** The checks of `store` in their order. */
  method Record(data: seq<byte>, blob: seq<byte>, cookies: bool, now: real) returns (r: Option<WireAnswer>)
    ensures r == Recording(data, blob, now, cookies)
    ensures r.Some? ==> QueryKey(data).Some?
  {
    var found := ComputeQueryKey(data);
    if found.None? {
      return None;
    }
    var offs := ComputeTtlOffsets(blob);
    if offs.None? || offs.value == [] {
      return None;
    }
    TtlFieldsAreFields(blob);
    var original := Originals(blob, offs.value);
    var base := Minimum(original);
    if base < 1 {
      return None;
    }
    var cookie := None;
    if cookies {
      var inReply := ComputeEdnsOption(blob, OPTION_COOKIE);
      if inReply.Some? {
        var inQuery := ComputeEdnsOption(data, OPTION_COOKIE);
        if !(inReply.value.1 == 16 && inQuery.Some? && inQuery.value.1 >= 8) {
          return None;
        }
        cookie := Some((inReply.value.0, inQuery.value.0));
      }
    }
    return Some(WireAnswer(blob, offs.value, original, base, now, found.value.1, cookie));
  }
}
