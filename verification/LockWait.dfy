/** The wait loop of `cache_lock`: doubling back-off with a cap, under a deadline. */
module LockWait {

  const CACHE_LOCK_WAIT_TIMEOUT := 1.0
  const CACHE_LOCK_RETRY_INTERVAL := 0.01
  const CACHE_LOCK_MAX_RETRY_INTERVAL := 0.1

  /** How much longer than asked the process was away. */
  type Delay = r: real | 0.0 <= r witness 0.0

  function Min(x: real, y: real): real {
    if x <= y then x else y
  }

  /** The back-off before retry `k`, counting from 0. */
  ghost function Interval(k: nat): (r: real)
    ensures 0.0 < r <= CACHE_LOCK_MAX_RETRY_INTERVAL
  {
    if k == 0 then CACHE_LOCK_RETRY_INTERVAL else Min(Interval(k - 1) * 2.0, CACHE_LOCK_MAX_RETRY_INTERVAL)
  }

  ghost function Total(k: nat): real {
    if k == 0 then 0.0 else Total(k - 1) + Interval(k - 1)
  }

  /** Four doublings and nine capped waits pass the deadline; one wait fewer does not. */
  lemma ThirteenWaits()
    ensures Total(12) == 0.95 && Total(13) > CACHE_LOCK_WAIT_TIMEOUT
  {
    assert Interval(1) == 0.02 && Interval(2) == 0.04 && Interval(3) == 0.08 && Interval(4) == 0.1;
    assert Interval(5) == Interval(6) == Interval(7) == Interval(8) == 0.1;
    assert Interval(9) == Interval(10) == Interval(11) == Interval(12) == 0.1;
    assert Total(4) == 0.15;
    assert Total(8) == 0.55;
  }

  lemma {:induction false} TotalGrows(k: nat, n: nat)
    requires k <= n
    ensures Total(k) <= Total(n)
  {
    if k < n {
      TotalGrows(k, n - 1);
    }
  }

  /** `adds(i)` is the outcome of the i-th `cache.add`; `late` is how much the i-th sleep or
      clock reading overshoots. At most 13 sleeps and 14 attempts, reached when the lock stays
      taken and nothing is late. */
  method CacheLock(adds: nat -> bool, late: nat -> Delay, start: real)
    returns (locked: bool, attempts: nat, sleeps: nat, clock: real)
    ensures 1 <= attempts <= 14 && sleeps == attempts - 1
    ensures locked == adds(attempts - 1)
    ensures forall i :: 0 <= i < attempts - 1 ==> !adds(i)
    ensures !locked ==> clock >= start + 1.0
    ensures (forall i :: late(i) == 0.0) && (forall i :: 0 <= i < 14 ==> !adds(i)) ==> attempts == 14
  {
    ThirteenWaits();
    clock := start;
    attempts, sleeps := 0, 0;
    var deadline := start + CACHE_LOCK_WAIT_TIMEOUT;
    var retryInterval := CACHE_LOCK_RETRY_INTERVAL;
    while !adds(attempts)
      invariant attempts == sleeps <= 13
      invariant retryInterval == Interval(sleeps)
      invariant forall i :: 0 <= i < attempts ==> !adds(i)
      invariant clock - start >= Min(CACHE_LOCK_WAIT_TIMEOUT, Total(sleeps))
      invariant (forall i :: late(i) == 0.0) ==> clock - start == Min(CACHE_LOCK_WAIT_TIMEOUT, Total(sleeps))
      decreases 13 - sleeps
    {
      clock := clock + late(2 * sleeps);
      var remaining := deadline - clock;
      if sleeps < 13 {
        TotalGrows(sleeps, 12);
      }
      if remaining <= 0.0 {
        attempts := attempts + 1;
        return false, attempts, sleeps, clock;
      }
      clock := clock + Min(retryInterval, remaining) + late(2 * sleeps + 1);
      retryInterval := Min(retryInterval * 2.0, CACHE_LOCK_MAX_RETRY_INTERVAL);
      attempts, sleeps := attempts + 1, sleeps + 1;
    }
    attempts := attempts + 1;
    locked := true;
  }
}
