// Bounded acquisition of locks a dead process may hold (shmlock.py).

module ShmLock {
  import opened Wrappers

  const RETRY: real := 5.0

  /** What one attempt came to: whether the lock is held, whether the caller
    * waited out the timeout, and when the lock is probed next. */
  datatype Attempt = Attempt(held: bool, waited: bool, retryAt: Option<real>)

  /** `hold` on a lock that is `taken` or free for the whole attempt. `now` is
    * the clock on entry and `later` the clock once a timeout has run out. */
  function Try(retryAt: Option<real>, taken: bool, now: real, later: real): Attempt {
    match retryAt
    case Some(retry) =>
      if now < retry then Attempt(false, false, retryAt)
      else if taken then Attempt(false, false, Some(now + RETRY))
      else Attempt(true, false, None)
    case None =>
      if taken then Attempt(false, true, Some(later + RETRY)) else Attempt(true, false, None)
  }

  /** The locks of one process's view: `taken` is shared, `retryAt` its own. */
  class BoundedLocks {
    const taken: array<bool>
    var retryAt: map<nat, real>

    constructor (taken: array<bool>)
      ensures this.taken == taken && retryAt == map[]
    {
      this.taken := taken;
      retryAt := map[];
    }

    function RetryOf(i: nat): Option<real>
      reads this
    {
      if i in retryAt then Some(retryAt[i]) else None
    }

    method Acquire(i: nat) returns (ok: bool)
      requires i < taken.Length
      modifies taken
      ensures ok == !old(taken[i])
      ensures taken[..] == old(taken[..])[i := true]
    {
      ok := !taken[i];
      taken[i] := true;
    }

    /** Entry to `hold`. */
    method Hold(i: nat, now: real, later: real) returns (held: bool, waited: bool)
      requires i < taken.Length
      modifies this, taken
      ensures Attempt(held, waited, RetryOf(i)) == Try(old(RetryOf(i)), old(taken[i]), now, later)
      ensures forall j: nat :: j != i ==> RetryOf(j) == old(RetryOf(j))
      ensures taken[..] == if held then old(taken[..])[i := true] else old(taken[..])
    {
      if i in retryAt {
        if now < retryAt[i] {
          return false, false;
        }
        var ok := Acquire(i);
        if !ok {
          retryAt := retryAt[i := now + RETRY];
          return false, false;
        }
        retryAt := retryAt - {i};
      } else {
        var ok := Acquire(i);
        if !ok {
          retryAt := retryAt[i := later + RETRY];
          return false, true;
        }
      }
      return true, false;
    }

    /** Exit from `hold`. */
    method Release(i: nat)
      requires i < taken.Length
      modifies taken
      ensures taken[..] == old(taken[..])[i := false]
    {
      taken[i] := false;
    }
  }

  // ---- Runs of attempts on one lock ----

  datatype Moment = Moment(taken: bool, now: real, later: real)

  function Attempts(retryAt: Option<real>, moments: seq<Moment>): seq<Attempt>
    decreases |moments|
  {
    if moments == [] then []
    else
      var a := Try(retryAt, moments[0].taken, moments[0].now, moments[0].later);
      [a] + Attempts(a.retryAt, moments[1..])
  }

  /** However often a lock held by a dead process is asked for, the process
    * waits for it at most once, and never obtains it. */
  lemma {:induction false} DeadHolderCostsOneWait(retryAt: Option<real>, moments: seq<Moment>)
    requires forall m | m in moments :: m.taken
    ensures var run := Attempts(retryAt, moments);
            && |run| == |moments|
            && (forall i :: 0 <= i < |run| ==> !run[i].held && (run[i].waited ==> i == 0 && retryAt.None?))
    decreases |moments|
  {
    if moments != [] {
      assert moments[0].taken && forall m | m in moments[1..] :: m in moments;
      DeadHolderCostsOneWait(Try(retryAt, true, moments[0].now, moments[0].later).retryAt, moments[1..]);
    }
  }

  /** A lock that was written off is used again by the first attempt that finds
    * it free once the retry time has come, whatever happened in between. */
  lemma {:induction false} FreedLockIsFoundAgain(retryAt: Option<real>, moments: seq<Moment>, m: Moment)
    requires forall x | x in moments :: x.taken && x.later <= m.now - RETRY && x.now <= m.now - RETRY
    requires retryAt.Some? ==> retryAt.value <= m.now
    requires !m.taken
    ensures var run := Attempts(retryAt, moments + [m]);
            run[|run| - 1].held
    decreases |moments|
  {
    if moments == [] {
      assert moments + [m] == [m];
      assert Attempts(retryAt, [m])[0].held;
    } else {
      var a := Try(retryAt, true, moments[0].now, moments[0].later);
      assert moments[0] in moments && forall x | x in moments[1..] :: x in moments;
      assert (moments + [m])[1..] == moments[1..] + [m];
      FreedLockIsFoundAgain(a.retryAt, moments[1..], m);
      var tail := Attempts(a.retryAt, moments[1..] + [m]);
      assert Attempts(retryAt, moments + [m]) == [a] + tail;
    }
  }
}
