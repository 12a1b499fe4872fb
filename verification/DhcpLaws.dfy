// How long an address is held, and when a client is turned away, over several
// requests.

module DhcpLaws {
  import opened Wrappers
  import opened Sets
  import opened Globs
  import opened DhcpScopes

  /** For how long a grant holds its address: an offer for the offer hold, but never
    * longer than a lease, which is held for the lease time. */
  ghost predicate HeldFor(cfg: Config, offer: bool, hold: int) {
    if offer then hold <= cfg.offerHold && hold <= cfg.leaseTime && (hold == cfg.offerHold || hold == cfg.leaseTime)
    else hold == cfg.leaseTime
  }

  /** One client is given an address, and later another one asks for the very same: it
    * gets it as soon as the first one's time is over, and not before. */
  method AskAfter(s: Scope, first: Mac, offer: bool, second: Mac, requested: Option<Ip>, now: real, later: real, hold: int)
    returns (a: Option<Lease>, b: Option<Lease>)
    requires s.cfg.Injective() && Sound(s.cfg, s.leases, now) && now <= later && HeldFor(s.cfg, offer, hold)
    requires Lower(first) != Lower(second) && Lower(first) !in s.cfg.reservations && Lower(second) !in s.cfg.reservations
    requires !Live(s.leases, Lower(first), now) && !Live(s.leases, Lower(second), now)
    modifies s
    ensures a.Some? ==> a.value.expire == now + hold as real
    ensures a.Some? && later >= now + hold as real && Lapsed(old(s.leases), a.value.ip, later) ==>
              b.Some? && b.value.ip == a.value.ip
    ensures a.Some? && later < now + hold as real && b.Some? ==> b.value.ip != a.value.ip
  {
    hide InUse, Offers, Sound, RightAddress, Refusable, Reaped;
    ghost var m, k, before := Lower(first), Lower(second), s.leases;
    ghost var kept := Reaped(s.cfg, before, now);
    ReapedKeeps(s.cfg, before, now, m);
    ReapedKeeps(s.cfg, before, now, k);
    a := s.Allocate(first, "", requested, now, offer);
    ghost var mid := s.leases;
    var want := if a.Some? then Some(a.value.ip) else None;
    b := s.Allocate(second, "", want, later, false);
    if a.Some? {
      FirstGrant(s.cfg, kept, m, requested, now, offer, a.value, hold);
      SecondGrant(s.cfg, before, kept, mid, m, k, a.value, now, later, b);
    }
  }

  /** Whoever held this address then does not hold it at `later` any more. */
  ghost predicate Lapsed(leases: Leases, ip: Ip, later: real) {
    forall m :: Live(leases, m, later) ==> leases[m].ip != ip
  }

  lemma {:induction false} ReapedKeeps(cfg: Config, leases: Leases, now: real, m: Mac)
    ensures Live(Reaped(cfg, leases, now), m, now) <==> Live(leases, m, now)
    ensures m in Reaped(cfg, leases, now) ==> m in leases && Reaped(cfg, leases, now)[m] == leases[m]
  {
  }

  lemma {:induction false} FirstGrant(cfg: Config, leases: Leases, m: Mac, requested: Option<Ip>, now: real, offer: bool,
                                      lease: Lease, hold: int)
    requires HeldFor(cfg, offer, hold) && lease == Granted(cfg, m, lease.ip, "", now, offer)
    requires m !in cfg.reservations && !Live(leases, m, now) && RightAddress(cfg, leases, m, requested, now, lease.ip)
    ensures lease.expire == now + hold as real
    ensures cfg.InRange(lease.ip) && lease.ip !in cfg.reservations.Values
  {
  }

  lemma {:induction false} SecondGrant(cfg: Config, before: Leases, kept: Leases, mid: Leases, m: Mac, k: Mac, lease: Lease,
                                       now: real, later: real, b: Option<Lease>)
    requires m != k && m !in cfg.reservations && k !in cfg.reservations && now <= later
    requires kept == Reaped(cfg, before, now) && mid == kept[m := lease] && !Live(before, m, now) && !Live(before, k, now)
    requires cfg.InRange(lease.ip) && lease.ip !in cfg.reservations.Values
    requires var again := Reaped(cfg, mid, later);
             && (b.None? <==> Refusable(cfg, again, k, later, false))
             && (b.Some? ==> RightAddress(cfg, again, k, Some(lease.ip), later, b.value.ip))
    ensures later >= lease.expire && Lapsed(before, lease.ip, later) ==> b.Some? && b.value.ip == lease.ip
    ensures later < lease.expire && b.Some? ==> b.value.ip != lease.ip
  {
    hide InUse, Reaped, Offers;
    var again := Reaped(cfg, mid, later);
    ReapedKeeps(cfg, mid, later, k);
    ReapedKeeps(cfg, before, now, k);
    ReapedKeeps(cfg, mid, later, m);
    assert !Live(again, k, later);
    if later >= lease.expire && Lapsed(before, lease.ip, later) {
      forall x
        ensures !(Live(again, x, later) && again[x].ip == lease.ip)
      {
        ReapedKeeps(cfg, mid, later, x);
        ReapedKeeps(cfg, before, now, x);
      }
      assert lease.ip !in InUse(cfg, again, later);
      assert Free(cfg, again, later, lease.ip);
    }
    if later < lease.expire {
      assert Live(again, m, later) && again[m] == lease;
      assert lease.ip in InUse(cfg, again, later);
    }
  }

  /** With as many offers outstanding as the cap allows, which is a share of the pool but
    * at least four, whoever asks for another one is turned away; a request is not. */
  lemma {:induction false} FloodIsRefused(cfg: Config, leases: Leases, m: Mac, now: real, flood: set<Mac>)
    requires m !in cfg.reservations && !Live(leases, m, now)
    requires forall x :: x in flood ==> Live(leases, x, now) && leases[x].offered
    requires |flood| >= 4 && |flood| as real >= (cfg.rangeEnd - cfg.rangeStart + 1) as real * cfg.offerShare
    ensures Refusable(cfg, leases, m, now, true)
    ensures (exists ip :: Free(cfg, leases, now, ip)) ==> !Refusable(cfg, leases, m, now, false)
  {
    hide InUse;
    SubsetSize(flood, Offers(leases, now));
  }

  /** Below the cap a client is turned away only when the pool is exhausted. */
  lemma {:induction false} FewOffersAreHonoured(cfg: Config, leases: Leases, m: Mac, now: real, offers: set<Mac>)
    requires forall x :: Live(leases, x, now) && leases[x].offered ==> x in offers
    requires |offers| < 4 || (|offers| + 1) as real <= (cfg.rangeEnd - cfg.rangeStart + 1) as real * cfg.offerShare
    requires exists ip :: Free(cfg, leases, now, ip)
    ensures !Refusable(cfg, leases, m, now, true)
  {
    hide InUse;
    SubsetSize(Offers(leases, now), offers);
  }
}
