/** When a dry run can be trusted: exactly when no two rates of the action share a cache entry. */
module RateDryRuns {
  import opened RateHistory
  import opened RateLimiter

  /** A request asking for these keys in turn, all locks free, at a clock that never goes back, on
      logs as the limiter keeps them. */
  ghost predicate Request(rates: Rates, keys: seq<string>, log: Log, turns: seq<Turn>, from: real) {
    && Known(rates, log, turns) && AllLocked(turns) && NonDecreasing(turns, from)
    && |turns| == |keys| && (forall i :: 0 <= i < |keys| ==> turns[i].key == keys[i])
    && forall key :: key in log ==> Descending(log[key]) && AllBelow(log[key], from)
  }

  /** The dry run and the real run give the same verdict, whatever was consumed before. */
  ghost predicate Trustworthy(rates: Rates, keys: seq<string>) {
    forall log, turns, from :: Request(rates, keys, log, turns, from) ==>
      (Grants(rates, log, turns, true, 0) == |turns| <==> Grants(rates, log, turns, false, 0) == |turns|)
  }

  ghost predicate DistinctKeys(keys: seq<string>) {
    forall i, j :: 0 <= i < j < |keys| ==> keys[i] != keys[j]
  }

  /** For rates that can grant something at all, a dry run can be trusted if and only if the rates
      of the action differ in `per`. */
  lemma TrustworthyIff(rates: Rates, keys: seq<string>)
    requires forall k :: k in keys ==> k in rates && rates[k].amount >= 1 && rates[k].duration > 0.0
    ensures Trustworthy(rates, keys) <==> DistinctKeys(keys)
  {
    if DistinctKeys(keys) {
      forall log, turns, from | Request(rates, keys, log, turns, from)
        ensures Grants(rates, log, turns, true, 0) == Grants(rates, log, turns, false, 0)
      {
        DryRunAgrees(rates, log, turns, 0);
      }
    } else {
      var i, j :| 0 <= i < j < |keys| && keys[i] == keys[j];
      SharedEntryMisleads(rates, keys, i, j);
    }
  }

  /** One slot is left in the shared entry, and everything happens within its duration. */
  lemma SharedEntryMisleads(rates: Rates, keys: seq<string>, i: nat, j: nat)
    requires forall k :: k in keys ==> k in rates && rates[k].amount >= 1 && rates[k].duration > 0.0
    requires i < j < |keys| && keys[i] == keys[j]
    ensures !Trustworthy(rates, keys)
  {
    hide Recent, Charged, Grants, Ticks, Room, Times, Descending, AllBelow, NonDecreasing;
    var key := keys[j];
    var filled := rates[key].amount - 1;
    var parts := |keys| + filled + 2;
    var step := Step(rates[key].duration, parts);
    var log, turns := OneSlotLeft(rates, keys, key, step, filled);
    forall n | 0 <= n < |turns|
      ensures |log[turns[n].key]| < rates[turns[n].key].amount
    {
      assert keys[n] in keys;
    }
    DryRunGrants(rates, log, turns, 0);
    RealRunDenies(rates, log, turns, i, j, step, filled, parts);
    assert Request(rates, keys, log, turns, 0.0);
  }

  function Times(step: real, n: int): real {
    step * n as real
  }

  function Step(duration: real, parts: nat): (step: real)
    requires duration > 0.0 && parts > 0
    ensures step > 0.0 && Times(step, parts) == duration
  {
    duration / parts as real
  }

  lemma OneSlotLeft(rates: Rates, keys: seq<string>, key: string, step: real, filled: nat)
    returns (log: Log, turns: seq<Turn>)
    requires step > 0.0 && forall k :: k in keys ==> k in rates
    ensures Request(rates, keys, log, turns, 0.0) && Increasing(turns, 0.0)
    ensures forall n :: 0 <= n < |turns| ==> turns[n].at == Times(step, n + 1)
    ensures forall k :: k in rates ==> log[k] == if k == key then Ticks(step, filled) else []
  {
    hide Ticks, Times;
    log := map k | k in rates :: if k == key then Ticks(step, filled) else [];
    turns := seq(|keys|, n requires 0 <= n < |keys| => Turn(keys[n], true, Times(step, n + 1)));
    TicksDescend(step, filled);
    TurnsIncrease(step, turns);
    EmptyHistory(0.0, 0.0);
  }

  lemma RealRunDenies(rates: Rates, log: Log, turns: seq<Turn>, i: nat, j: nat, step: real, filled: nat, parts: nat)
    requires Known(rates, log, turns) && i < j < |turns| && turns[i].key == turns[j].key
    requires step > 0.0 && rates[turns[j].key].duration == Times(step, parts) && parts == |turns| + filled + 2
    requires rates[turns[j].key].amount == filled + 1 && log[turns[j].key] == Ticks(step, filled)
    requires forall n :: 0 <= n < |turns| ==> turns[n].at == Times(step, n + 1) && turns[n].at > 0.0
    ensures Grants(rates, log, turns, false, 0) < |turns|
  {
    hide Recent, Charged, Grants, Times;
    var key := turns[j].key;
    ChargedMembers(log, turns, i, j, key);
    var charged := Charged(log, turns, false, j)[key];
    var cutoff := turns[j].at - rates[key].duration;
    Within(step, j + 1, parts, filled);
    forall n | 0 <= n < |charged|
      ensures charged[n] > cutoff
    {
      assert charged[n] in charged;
    }
    RecentAllIff(charged, cutoff);
    GrantsExact(rates, log, turns, false, 0);
    assert !Room(rates, Charged(log, turns, false, j), turns[j]);
  }

  /** `n` hits, the latest at zero. */
  ghost function Ticks(step: real, n: nat): (hits: seq<real>)
    ensures |hits| == n
  {
    seq(n, m requires 0 <= m < n => -Times(step, m))
  }

  lemma Product(step: real, a: int, b: int)
    requires step > 0.0 && a < b
    ensures Times(step, a) < Times(step, b)
  {
    assert Times(step, b - a) > 0.0;
    assert Times(step, b) == Times(step, a) + Times(step, b - a);
  }

  lemma TicksDescend(step: real, n: nat)
    requires step > 0.0
    ensures Descending(Ticks(step, n)) && AllBelow(Ticks(step, n), 0.0)
  {
    forall a, b | 0 <= a < b < n
      ensures Ticks(step, n)[a] > Ticks(step, n)[b]
    {
      Product(step, a, b);
    }
    forall a | 0 <= a < n
      ensures Ticks(step, n)[a] <= 0.0
    {
      Product(step, -1, a);
    }
  }

  lemma TurnsIncrease(step: real, turns: seq<Turn>)
    requires step > 0.0 && forall n :: 0 <= n < |turns| ==> turns[n].at == Times(step, n + 1)
    ensures Increasing(turns, 0.0)
  {
    forall n | 0 <= n < |turns|
      ensures 0.0 < turns[n].at
    {
      Product(step, 0, n + 1);
    }
    forall a, b | 0 <= a < b < |turns|
      ensures turns[a].at < turns[b].at
    {
      Product(step, a + 1, b + 1);
    }
  }

  /** From the oldest of the hits to the latest of the turns it is less than the duration. */
  lemma Within(step: real, n: nat, parts: nat, filled: nat)
    requires step > 0.0 && n + filled < parts
    ensures Times(step, n) < Times(step, parts)
    ensures forall x :: x in Ticks(step, filled) ==> x > Times(step, n) - Times(step, parts)
  {
    Product(step, n, parts);
    forall m {:trigger Ticks(step, filled)[m]} | 0 <= m < filled
      ensures Ticks(step, filled)[m] > Times(step, n) - Times(step, parts)
    {
      Product(step, n + m, parts);
      assert Times(step, n + m) == Times(step, n) + Times(step, m);
    }
  }

  /** A dry run only asks whether there is a slot. */
  lemma {:induction false} DryRunGrants(rates: Rates, log: Log, turns: seq<Turn>, n: nat)
    requires Known(rates, log, turns) && AllLocked(turns) && n <= |turns|
    requires forall i :: 0 <= i < |turns| ==>
      |log[turns[i].key]| < rates[turns[i].key].amount && Descending(log[turns[i].key])
    ensures Grants(rates, log, turns, true, n) == |turns|
    decreases |turns| - n
  {
    if n < |turns| {
      RecentPrefix(log[turns[n].key], turns[n].at - rates[turns[n].key].duration);
      DryRunGrants(rates, log, turns, n + 1);
    }
  }

  /** What a real run has put into an entry by turn `n`, turn `i` among it. */
  lemma {:induction false} ChargedMembers(log: Log, turns: seq<Turn>, i: nat, n: nat, key: string)
    requires n <= |turns| && key in log && forall t :: 0 <= t < |turns| ==> turns[t].key in log && turns[t].at > 0.0
    ensures var charged := Charged(log, turns, false, n)[key];
      && (forall x :: x in charged ==> x in log[key] || x > 0.0)
      && |charged| >= |log[key]| + if i < n && turns[i].key == key then 1 else 0
  {
    if n > 0 {
      ChargedMembers(log, turns, i, n - 1, key);
    }
  }

  // ---------- Two rates of one `per` with different durations ----------

  /** What a hit at a rate of duration `d` writes back still shows a rate of duration `longer` all it
      has to see if and only if no stored hit is older than `d` yet counts for `longer`. So rates that
      share an entry forget for one another, and the limiter takes their keys to be distinct. */
  lemma SharedEntryForgetsIff(h: seq<real>, now: real, d: real, longer: real)
    requires Descending(h)
    ensures Recent(Pruned(h, now - d), now - longer) == Recent(h, now - longer)
      <==> forall i :: 0 <= i < |h| && h[i] > now - longer ==> h[i] > now - d
  {
    var c, far := now - d, now - longer;
    PrunedOfDescending(h, c);
    RecentPrefix(h, c);
    RecentPrefix(h, far);
    if c <= far {
      RecentRecent(h, c, far);
    } else {
      RecentAllIff(Recent(h, c), far);
      var n := |Recent(h, c)|;
      assert forall i :: 0 <= i < |h| ==> (i < |Recent(h, far)| <==> h[i] > far) && (i < n <==> h[i] > c);
      RecentFewer(h, c, far);
      var m := |Recent(h, far)|;
      assert Recent(Recent(h, c), far) == h[..n] && Recent(h, far) == h[..m];
      if n < m {
        assert h[n] > far && h[n] <= c;
      }
    }
  }

  lemma {:induction false} RecentFewer(h: seq<real>, c: real, far: real)
    requires far <= c
    ensures |Recent(h, c)| <= |Recent(h, far)|
  {
    if h != [] {
      RecentFewer(h[1..], c, far);
    }
  }

  /** A witness: a hit of half a minute ago, consumed again at ten seconds, is gone for a minute. */
  lemma SharedEntryForgets(now: real)
    ensures Recent(Pruned([now - 30.0], now - 10.0), now - 60.0) == [] != Recent([now - 30.0], now - 60.0)
  {
  }
}
