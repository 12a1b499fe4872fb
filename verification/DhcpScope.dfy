// Address allocation (dhcp/scope.py). An address is its 32-bit number; a
// reservation is for a lowercased hardware address.

module DhcpScopes {
  import opened Wrappers
  import opened Sets
  import opened Globs

  type Mac = string
  type Ip = int

  datatype Lease = Lease(ip: Ip, mac: Mac, hostname: string, expire: real, offered: bool)

  type Leases = map<Mac, Lease>

  datatype Config = Config(rangeStart: Ip, rangeEnd: Ip, leaseTime: int, offerHold: int, offerShare: real,
                           maxLeases: nat, reservations: map<Mac, Ip>)
  {
    predicate InRange(ip: Ip) {
      rangeStart <= ip <= rangeEnd
    }

    /** `_offer_cap`. */
    function OfferCap(): (cap: int)
      ensures var share := (rangeEnd - rangeStart + 1) as real * offerShare;
              if share < 5.0 then cap == 4 else cap as real <= share < (cap + 1) as real
    {
      var share := ((rangeEnd - rangeStart + 1) as real * offerShare).Floor;
      if share > 4 then share else 4
    }

    /** No two clients are promised the same address. */
    ghost predicate Injective() {
      forall a, b :: a in reservations && b in reservations && a != b ==> reservations[a] != reservations[b]
    }
  }

  predicate Live(leases: Leases, m: Mac, now: real) {
    m in leases && leases[m].expire > now
  }

  function InUse(cfg: Config, leases: Leases, now: real): (ips: set<Ip>)
    ensures forall ip :: ip in ips <==>
              (exists m :: Live(leases, m, now) && leases[m].ip == ip) || ip in cfg.reservations.Values
  {
    (set m | m in leases && leases[m].expire > now :: leases[m].ip) + cfg.reservations.Values
  }

  function Offers(leases: Leases, now: real): (ms: set<Mac>)
    ensures forall m :: m in ms <==> Live(leases, m, now) && leases[m].offered
  {
    set m | m in leases && leases[m].offered && leases[m].expire > now
  }

  /** `_reap`: expired leases go when the table is too large. */
  function Reaped(cfg: Config, leases: Leases, now: real): Leases {
    if |leases| <= cfg.maxLeases then leases
    else map m | m in leases && leases[m].expire > now :: leases[m]
  }

  function Granted(cfg: Config, m: Mac, ip: Ip, hostname: string, now: real, offer: bool): Lease {
    var hold := if offer && cfg.offerHold < cfg.leaseTime then cfg.offerHold else cfg.leaseTime;
    Lease(ip, m, hostname, now + hold as real, offer)
  }

  // ---- What an allocation owes ----

  /** A pool address that nobody has and nobody is promised. */
  predicate Free(cfg: Config, leases: Leases, now: real, ip: Ip) {
    cfg.InRange(ip) && ip !in InUse(cfg, leases, now)
  }

  ghost predicate Exhausted(cfg: Config, leases: Leases, now: real) {
    forall ip :: cfg.InRange(ip) ==> ip in InUse(cfg, leases, now)
  }

  /** The address that client `m` is to get: its reservation; the one it has; the
    * one it asks for, if free; else the lowest free one. */
  ghost predicate RightAddress(cfg: Config, leases: Leases, m: Mac, requested: Option<Ip>, now: real, ip: Ip) {
    if m in cfg.reservations then ip == cfg.reservations[m]
    else if Live(leases, m, now) then ip == leases[m].ip
    else if requested.Some? && Free(cfg, leases, now, requested.value) then ip == requested.value
    else Free(cfg, leases, now, ip) && forall lower :: Free(cfg, leases, now, lower) ==> ip <= lower
  }

  /** The only two reasons to turn a client away. */
  ghost predicate Refusable(cfg: Config, leases: Leases, m: Mac, now: real, offer: bool) {
    && m !in cfg.reservations && !Live(leases, m, now)
    && ((offer && |Offers(leases, now)| >= cfg.OfferCap()) || Exhausted(cfg, leases, now))
  }

  class Scope {
    const cfg: Config
    var leases: Leases

    constructor (cfg: Config)
      ensures this.cfg == cfg && leases == map[]
    {
      this.cfg, leases := cfg, map[];
    }

    /** `allocate`. */
    method Allocate(name: Mac, hostname: string, requested: Option<Ip>, now: real, offer: bool) returns (r: Option<Lease>)
      modifies this
      ensures var m, before := Lower(name), Reaped(cfg, old(leases), now);
              && (r.None? <==> Refusable(cfg, before, m, now, offer))
              && (r.None? ==> leases == before)
              && (r.Some? && offer && Live(before, m, now) ==> r.value == before[m] && leases == before)
              && (r.Some? && !(offer && Live(before, m, now)) ==>
                    && leases == before[m := r.value]
                    && r.value == Granted(cfg, m, r.value.ip, hostname, now, offer)
                    && RightAddress(cfg, before, m, requested, now, r.value.ip))
    {
      hide InUse, Offers;
      var m := Lower(name);
      Reap(now);
      var live := m in leases && leases[m].expire > now;
      if offer && live {
        return Some(leases[m]);
      }
      if m in cfg.reservations {
        var lease := Grant(m, cfg.reservations[m], hostname, now, offer);
        return Some(lease);
      }
      if live {
        var lease := Grant(m, leases[m].ip, hostname, now, offer);
        return Some(lease);
      }
      if offer && |Offers(leases, now)| >= cfg.OfferCap() {
        return None;
      }
      var inUse := InUse(cfg, leases, now);
      if requested.Some? && requested.value !in inUse && cfg.InRange(requested.value) {
        var lease := Grant(m, requested.value, hostname, now, offer);
        return Some(lease);
      }
      var found := FirstFree(inUse);
      if found.None? {
        return None;
      }
      var lease := Grant(m, found.value, hostname, now, offer);
      return Some(lease);
    }

    /** The scan of the pool. */
    method FirstFree(inUse: set<Ip>) returns (found: Option<Ip>)
      ensures found.None? <==> forall ip :: cfg.InRange(ip) ==> ip in inUse
      ensures found.Some? ==> cfg.InRange(found.value) && found.value !in inUse
      ensures found.Some? ==> forall ip :: cfg.InRange(ip) && ip !in inUse ==> found.value <= ip
    {
      var n := cfg.rangeStart;
      while n <= cfg.rangeEnd
        invariant forall ip :: cfg.rangeStart <= ip < n && ip <= cfg.rangeEnd ==> ip in inUse
      {
        if n !in inUse {
          return Some(n);
        }
        n := n + 1;
      }
      return None;
    }

    method Reap(now: real)
      modifies this
      ensures leases == Reaped(cfg, old(leases), now)
    {
      if |leases| <= cfg.maxLeases {
        return;
      }
      ghost var all := leases;
      var expired := set m | m in leases && leases[m].expire <= now;
      while expired != {}
        invariant leases == map m | m in all && (all[m].expire > now || m in expired) :: all[m]
        invariant expired <= all.Keys && forall m :: m in expired ==> all[m].expire <= now
        decreases expired
      {
        var m :| m in expired;
        expired := expired - {m};
        leases := leases - {m};
      }
    }

    /** `_grant`. */
    method Grant(m: Mac, ip: Ip, hostname: string, now: real, offer: bool) returns (lease: Lease)
      modifies this
      ensures lease == Granted(cfg, m, ip, hostname, now, offer) && leases == old(leases)[m := lease]
    {
      var hold := cfg.leaseTime;
      if offer && cfg.offerHold < cfg.leaseTime {
        hold := cfg.offerHold;
      }
      lease := Lease(ip, m, hostname, now + hold as real, offer);
      leases := leases[m := lease];
    }

    /** `release`: with `ciaddr`, only the lease of that very address. */
    method Release(name: Mac, ciaddr: Option<Ip>) returns (freed: Option<Ip>)
      modifies this
      ensures var m := Lower(name);
              if m in old(leases) && (ciaddr.Some? ==> old(leases)[m].ip == ciaddr.value)
              then freed == Some(old(leases)[m].ip) && leases == old(leases) - {m}
              else freed == None && leases == old(leases)
    {
      var m := Lower(name);
      if m !in leases {
        return None;
      }
      var held := leases[m];
      if ciaddr.Some? && held.ip != ciaddr.value {
        return None;
      }
      leases := leases - {m};
      return Some(held.ip);
    }
  }

  // ---- What every run keeps ----

  /** No two live leases share an address. */
  ghost predicate Exclusive(leases: Leases, now: real) {
    forall a, b :: Live(leases, a, now) && Live(leases, b, now) && a != b ==> leases[a].ip != leases[b].ip
  }

  /** A reserved client has its own address, any other one a pool address that is
    * promised to nobody. */
  ghost predicate Placed(cfg: Config, leases: Leases) {
    forall m :: m in leases ==>
      leases[m].mac == m &&
      if m in cfg.reservations then leases[m].ip == cfg.reservations[m]
      else cfg.InRange(leases[m].ip) && leases[m].ip !in cfg.reservations.Values
  }

  function PoolOffers(cfg: Config, leases: Leases, now: real): set<Mac> {
    Offers(leases, now) - cfg.reservations.Keys
  }

  ghost predicate Sound(cfg: Config, leases: Leases, now: real) {
    Exclusive(leases, now) && Placed(cfg, leases) && |PoolOffers(cfg, leases, now)| <= cfg.OfferCap()
  }

  lemma {:induction false} NothingIsSound(cfg: Config, now: real)
    ensures Sound(cfg, map[], now)
  {
    assert PoolOffers(cfg, map[], now) == {};
  }

  /** Fewer leases, later: still sound. */
  lemma {:induction false} LessIsSound(cfg: Config, leases: Leases, then': real, fewer: Leases, now: real)
    requires Sound(cfg, leases, then') && then' <= now
    requires forall m :: m in fewer ==> m in leases && fewer[m] == leases[m]
    ensures Sound(cfg, fewer, now)
  {
    SubsetSize(PoolOffers(cfg, fewer, now), PoolOffers(cfg, leases, then'));
    forall a, b | Live(fewer, a, now) && Live(fewer, b, now) && a != b
      ensures fewer[a].ip != fewer[b].ip
    {
      assert Live(leases, a, then') && Live(leases, b, then');
    }
  }

  lemma {:induction false} ReapIsSound(cfg: Config, leases: Leases, then': real, now: real)
    requires Sound(cfg, leases, then') && then' <= now
    ensures Sound(cfg, Reaped(cfg, leases, now), now)
  {
    LessIsSound(cfg, leases, then', Reaped(cfg, leases, now), now);
  }

  /** Giving the right address to a client that is not refused keeps it sound. */
  lemma {:induction false} GrantIsSound(cfg: Config, leases: Leases, m: Mac, requested: Option<Ip>, hostname: string,
                                        now: real, offer: bool, ip: Ip)
    requires cfg.Injective() && Sound(cfg, leases, now)
    requires RightAddress(cfg, leases, m, requested, now, ip) && !(offer && Live(leases, m, now))
    requires !Refusable(cfg, leases, m, now, offer)
    ensures Sound(cfg, leases[m := Granted(cfg, m, ip, hostname, now, offer)], now)
  {
    hide RightAddress, Refusable, Placed, Offers;
    var lease := Granted(cfg, m, ip, hostname, now, offer);
    NobodyElse(cfg, leases, m, requested, now, ip);
    CapHolds(cfg, leases, m, now, offer, lease);
    PlacedStill(cfg, leases, m, requested, now, lease);
    var after := leases[m := lease];
    forall a, b | Live(after, a, now) && Live(after, b, now) && a != b
      ensures after[a].ip != after[b].ip
    {
      assert a != m ==> Live(leases, a, now);
      assert b != m ==> Live(leases, b, now);
    }
  }

  /** Nobody else holds the address that a client is given. */
  lemma {:induction false} NobodyElse(cfg: Config, leases: Leases, m: Mac, requested: Option<Ip>, now: real, ip: Ip)
    requires cfg.Injective() && Sound(cfg, leases, now) && RightAddress(cfg, leases, m, requested, now, ip)
    ensures forall b :: Live(leases, b, now) && b != m ==> leases[b].ip != ip
  {
    forall b | Live(leases, b, now) && b != m
      ensures leases[b].ip != ip
    {
      if m in cfg.reservations {
        assert ip in cfg.reservations.Values;
      } else if !Live(leases, m, now) {
        assert leases[b].ip in InUse(cfg, leases, now);
      }
    }
  }

  lemma {:induction false} PlacedStill(cfg: Config, leases: Leases, m: Mac, requested: Option<Ip>, now: real, lease: Lease)
    requires Placed(cfg, leases) && RightAddress(cfg, leases, m, requested, now, lease.ip) && lease.mac == m
    ensures Placed(cfg, leases[m := lease])
  {
  }

  lemma {:induction false} CapHolds(cfg: Config, leases: Leases, m: Mac, now: real, offer: bool, lease: Lease)
    requires |PoolOffers(cfg, leases, now)| <= cfg.OfferCap() && lease.offered == offer
    requires !(offer && Live(leases, m, now)) && !Refusable(cfg, leases, m, now, offer)
    ensures |PoolOffers(cfg, leases[m := lease], now)| <= cfg.OfferCap()
  {
    var after := PoolOffers(cfg, leases[m := lease], now);
    if offer && m !in cfg.reservations {
      var offers := Offers(leases, now);
      SubsetSize(after, offers + {m});
      assert |offers + {m}| <= |offers| + 1;
    } else {
      SubsetSize(after, PoolOffers(cfg, leases, now));
    }
  }

  // ---- Runs ----

  datatype Op =
    | Ask(name: Mac, hostname: string, requested: Option<Ip>, now: real, offer: bool)
    | GiveBack(name: Mac, ciaddr: Option<Ip>)

  /** Any run of requests under a clock that does not run backwards leaves the
    * scope sound: addresses exclusive, in their place, and offers within the cap. */
  method Run(cfg: Config, ops: seq<Op>) returns (scope: Scope, ghost clock: real)
    requires cfg.Injective()
    requires forall i, j :: 0 <= i < j < |ops| && ops[i].Ask? && ops[j].Ask? ==> ops[i].now <= ops[j].now
    ensures scope.cfg == cfg && Sound(cfg, scope.leases, clock)
    ensures forall op :: op in ops && op.Ask? ==> op.now <= clock
  {
    hide Sound, RightAddress, Reaped, Granted, Refusable;
    scope := new Scope(cfg);
    clock := FirstTime(ops);
    NothingIsSound(cfg, clock);
    FirstComesFirst(ops);
    for i := 0 to |ops|
      invariant fresh(scope) && scope.cfg == cfg && Sound(cfg, scope.leases, clock)
      invariant forall j :: 0 <= j < i && ops[j].Ask? ==> ops[j].now <= clock
      invariant forall j :: i <= j < |ops| && ops[j].Ask? ==> clock <= ops[j].now
    {
      ghost var before := scope.leases;
      match ops[i] {
        case Ask(name, hostname, requested, now, offer) =>
          var r := scope.Allocate(name, hostname, requested, now, offer);
          ReapIsSound(cfg, before, clock, now);
          ghost var m, reaped := Lower(name), Reaped(cfg, before, now);
          if r.Some? && !(offer && Live(reaped, m, now)) {
            GrantIsSound(cfg, reaped, m, requested, hostname, now, offer, r.value.ip);
          }
          clock := now;
        case GiveBack(name, ciaddr) =>
          var _ := scope.Release(name, ciaddr);
          LessIsSound(cfg, before, clock, scope.leases, clock);
      }
    }
  }

  ghost function FirstTime(ops: seq<Op>): real {
    if ops == [] then 0.0 else if ops[0].Ask? then ops[0].now else FirstTime(ops[1..])
  }

  lemma {:induction false} FirstComesFirst(ops: seq<Op>)
    requires forall i, j :: 0 <= i < j < |ops| && ops[i].Ask? && ops[j].Ask? ==> ops[i].now <= ops[j].now
    ensures forall j :: 0 <= j < |ops| && ops[j].Ask? ==> FirstTime(ops) <= ops[j].now
  {
    if ops != [] && !ops[0].Ask? {
      FirstComesFirst(ops[1..]);
      assert forall j :: 1 <= j < |ops| ==> ops[j] == ops[1..][j - 1];
    }
  }

  /** Reservations must be distinct: two clients with the same one get the same
    * address, and both leases are live. */
  lemma {:induction false} SharedReservationClashes(cfg: Config, a: Mac, b: Mac, now: real)
    requires a != b && a in cfg.reservations && b in cfg.reservations && cfg.reservations[a] == cfg.reservations[b]
    requires cfg.leaseTime > 0
    ensures var one := map[a := Granted(cfg, a, cfg.reservations[a], "", now, false)];
            && RightAddress(cfg, map[], a, None, now, cfg.reservations[a])
            && RightAddress(cfg, one, b, None, now, cfg.reservations[b])
            && !Exclusive(one[b := Granted(cfg, b, cfg.reservations[b], "", now, false)], now)
  {
    var one := map[a := Granted(cfg, a, cfg.reservations[a], "", now, false)];
    var two := one[b := Granted(cfg, b, cfg.reservations[b], "", now, false)];
    assert Live(two, a, now) && Live(two, b, now);
  }
}
