/** Hit histories of the rate limiter: newest-first lists of timestamps, the TTL cache entry
    that stores one, and the full log that the cache stands for. */
module RateHistory {
  import opened Options

  /** A configured rate. `per` is already part of the cache key. */
  datatype Rate = Rate(amount: int, duration: real)

  /** What `cache.set` stores: the value and the instant at which the backend drops it. */
  datatype Entry = Entry(history: seq<real>, expires: real)

  // ---------- Lists of timestamps ----------

  /** Newest first; hits of the same clock tick may be equal. */
  ghost predicate Descending(h: seq<real>) {
    forall i, j :: 0 <= i < j < |h| ==> h[i] >= h[j]
  }

  ghost predicate AllBelow(h: seq<real>, t: real) {
    forall i :: 0 <= i < |h| ==> h[i] <= t
  }

  /** The hits after `cutoff`, in order: the meaning of "not yet expired". */
  function Recent(h: seq<real>, cutoff: real): seq<real> {
    if h == [] then []
    else if h[0] > cutoff then [h[0]] + Recent(h[1..], cutoff)
    else Recent(h[1..], cutoff)
  }

  /** The list without any hit stamped `ts`: what `rollback` writes back. */
  function Without(h: seq<real>, ts: real): seq<real> {
    if h == [] then []
    else if h[0] != ts then [h[0]] + Without(h[1..], ts)
    else Without(h[1..], ts)
  }

  /** The hits in the half-open window (lo, hi]. */
  function Window(h: seq<real>, lo: real, hi: real): seq<real> {
    if h == [] then []
    else if lo < h[0] <= hi then [h[0]] + Window(h[1..], lo, hi)
    else Window(h[1..], lo, hi)
  }

  /** Dropping expired hits from the tail only, as the code does. */
  function Pruned(h: seq<real>, cutoff: real): seq<real>
    decreases |h|
  {
    if h != [] && h[|h| - 1] <= cutoff then Pruned(h[..|h| - 1], cutoff) else h
  }

  function Quota(amount: int): nat {
    if amount < 0 then 0 else amount
  }

  /** A hit `amount` or more places further down the list lies at least `d` earlier. */
  ghost predicate Spaced(h: seq<real>, amount: int, d: real) {
    forall i, j :: 0 <= i && i + Quota(amount) <= j < |h| ==> h[j] <= h[i] - d
  }

  lemma {:induction false} RecentPrefix(h: seq<real>, c: real)
    requires Descending(h)
    ensures |Recent(h, c)| <= |h|
    ensures Recent(h, c) == h[..|Recent(h, c)|]
    ensures forall i :: 0 <= i < |Recent(h, c)| ==> h[i] > c
    ensures forall i :: |Recent(h, c)| <= i < |h| ==> h[i] <= c
  {
    if h != [] {
      RecentPrefix(h[1..], c);
      if h[0] <= c {
        RecentNone(h[1..], c);
      }
      assert forall i :: 1 <= i < |h| ==> h[i] == h[1..][i - 1];
    }
  }

  lemma {:induction false} RecentNone(h: seq<real>, c: real)
    requires AllBelow(h, c)
    ensures Recent(h, c) == []
  {
    if h != [] {
      RecentNone(h[1..], c);
    }
  }

  lemma {:induction false} RecentRecent(h: seq<real>, c: real, later: real)
    requires c <= later
    ensures Recent(Recent(h, c), later) == Recent(h, later)
  {
    if h != [] {
      RecentRecent(h[1..], c, later);
    }
  }

  lemma {:induction false} RecentWithout(h: seq<real>, ts: real, c: real)
    ensures Recent(Without(h, ts), c) == Without(Recent(h, c), ts)
  {
    if h != [] {
      RecentWithout(h[1..], ts, c);
    }
  }

  lemma {:induction false} RecentAppend(a: seq<real>, b: seq<real>, c: real)
    ensures Recent(a + b, c) == Recent(a, c) + Recent(b, c)
  {
    if a == [] {
      assert a + b == b;
    } else {
      RecentAppend(a[1..], b, c);
      assert (a + b)[1..] == a[1..] + b && (a + b)[0] == a[0];
      if a[0] > c {
        var rest, more := Recent(a[1..], c), Recent(b, c);
        hide Recent;
        assert ([a[0]] + rest) + more == [a[0]] + (rest + more);
      }
    }
  }

  lemma {:induction false} PrunedPrefix(h: seq<real>, c: real)
    ensures |Pruned(h, c)| <= |h| && Pruned(h, c) == h[..|Pruned(h, c)|]
    ensures forall i :: |Pruned(h, c)| <= i < |h| ==> h[i] <= c
    ensures Pruned(h, c) != [] ==> Pruned(h, c)[|Pruned(h, c)| - 1] > c
    decreases |h|
  {
    if h != [] && h[|h| - 1] <= c {
      PrunedPrefix(h[..|h| - 1], c);
    }
  }

  /** Popping from the tail computes the filter exactly when no expired hit precedes a live one. */
  lemma {:induction false} PrunedIsRecentIff(h: seq<real>, c: real)
    ensures Pruned(h, c) == Recent(h, c) <==> forall i, j :: 0 <= i < j < |h| && h[j] > c ==> h[i] > c
  {
    PrunedPrefix(h, c);
    var n := |Pruned(h, c)|;
    RecentAppend(h[..n], h[n..], c);
    assert h == h[..n] + h[n..];
    RecentNone(h[n..], c);
    RecentAllIff(h[..n], c);
    if forall i :: 0 <= i < n ==> h[i] > c {
      assert forall i :: 0 <= i < n ==> h[..n][i] > c;
    } else {
      var i :| 0 <= i < n && h[i] <= c;
      assert h[..n][i] <= c;
      assert h[n - 1] > c;
      assert i < n - 1;
    }
  }

  lemma {:induction false} RecentAllIff(h: seq<real>, c: real)
    ensures |Recent(h, c)| <= |h|
    ensures Recent(h, c) == h <==> forall i :: 0 <= i < |h| ==> h[i] > c
  {
    if h != [] {
      RecentAllIff(h[1..], c);
      if Recent(h, c) == h {
        assert h[0] > c;
        assert Recent(h[1..], c) == h[1..];
        assert forall i :: 1 <= i < |h| ==> h[i] == h[1..][i - 1];
      }
      if forall i :: 0 <= i < |h| ==> h[i] > c {
        assert forall i :: 0 <= i < |h[1..]| ==> h[1..][i] > c;
      }
    }
  }

  lemma PrunedOrdered(h: seq<real>, c: real, t: real)
    requires Descending(h) && AllBelow(h, t)
    ensures Descending(Pruned(h, c)) && AllBelow(Pruned(h, c), t)
  {
    PrunedPrefix(h, c);
  }

  lemma EmptyHistory(c: real, t: real)
    ensures Descending([]) && AllBelow([], t) && Recent([], c) == [] && Pruned([], c) == []
  {
  }

  lemma PrunedOfDescending(h: seq<real>, c: real)
    requires Descending(h)
    ensures Pruned(h, c) == Recent(h, c)
  {
    PrunedIsRecentIff(h, c);
  }

  /** Removing by equal timestamp keeps order, and keeps membership of everything else. */
  lemma {:induction false} WithoutFacts(h: seq<real>, ts: real)
    ensures |Without(h, ts)| <= |h|
    ensures forall x :: x in Without(h, ts) <==> x in h && x != ts
    ensures ts !in h ==> Without(h, ts) == h
    ensures Descending(h) ==> Descending(Without(h, ts))
  {
    if h != [] {
      WithoutFacts(h[1..], ts);
      assert h == [h[0]] + h[1..];
      if Descending(h) {
        assert Descending(h[1..]);
        var w := Without(h[1..], ts);
        forall j | 0 <= j < |w|
          ensures h[0] >= w[j]
        {
          assert w[j] in w && w[j] in h[1..];
          var k :| 0 <= k < |h[1..]| && h[1..][k] == w[j];
          assert h[k + 1] == w[j];
        }
      }
    }
  }

  /** Rolling back takes away exactly one hit if and only if its stamp occurs once. */
  lemma {:induction false} RollbackExactIff(h: seq<real>, ts: real)
    ensures |Without(h, ts)| == |h| - multiset(h)[ts]
    ensures |Without(h, ts)| == |h| - 1 <==> multiset(h)[ts] == 1
  {
    if h != [] {
      RollbackExactIff(h[1..], ts);
      assert h == [h[0]] + h[1..];
    }
  }

  /** What is left at a place stood there or further down. */
  lemma {:induction false} WithoutFurther(h: seq<real>, ts: real, l: nat) returns (m: nat)
    requires l < |Without(h, ts)|
    ensures l <= m < |h| && Without(h, ts)[l] == h[m]
  {
    if h[0] != ts && l == 0 {
      m := 0;
    } else {
      m := WithoutFurther(h[1..], ts, if h[0] != ts then l - 1 else l);
      m := m + 1;
    }
  }

  lemma {:induction false} SpacedWithout(h: seq<real>, ts: real, amount: int, d: real)
    requires Spaced(h, amount, d)
    ensures Spaced(Without(h, ts), amount, d)
  {
    if h != [] {
      var w := Without(h, ts);
      forall i, j | 0 <= i && i + Quota(amount) <= j < |h[1..]|
        ensures h[1..][j] <= h[1..][i] - d
      {
        assert h[1..][j] == h[j + 1] && h[1..][i] == h[i + 1];
      }
      SpacedWithout(h[1..], ts, amount, d);
      if h[0] != ts {
        forall k, l | 0 <= k && k + Quota(amount) <= l < |w|
          ensures w[l] <= w[k] - d
        {
          if k == 0 {
            var m := WithoutFurther(h, ts, l);
          } else {
            assert w[l] == Without(h[1..], ts)[l - 1] && w[k] == Without(h[1..], ts)[k - 1];
          }
        }
      }
    }
  }

  lemma SpacedGrant(h: seq<real>, now: real, amount: int, d: real)
    requires Descending(h) && Spaced(h, amount, d)
    requires |Recent(h, now - d)| < amount
    ensures Spaced([now] + h, amount, d)
  {
    RecentPrefix(h, now - d);
    var g := [now] + h;
    forall k, l | 0 <= k && k + Quota(amount) <= l < |g|
      ensures g[l] <= g[k] - d
    {
      assert g[l] == h[l - 1];
      if k > 0 {
        assert g[k] == h[k - 1];
      }
    }
  }

  /** In a spaced log, no window of the rate's length holds more than `amount` hits. */
  lemma WindowBound(h: seq<real>, amount: int, d: real, t: real)
    requires Descending(h) && Spaced(h, amount, d)
    ensures var hits := Window(h, t - d, t);
      hits == [] || |hits| <= amount
  {
    WindowIsSlice(h, t - d, t);
    var i, j :| 0 <= i <= j <= |h| && Window(h, t - d, t) == h[i..j]
                && forall k :: i <= k < j ==> t - d < h[k] <= t;
    var k := i + Quota(amount);
    assert k < |h| ==> h[k] <= h[i] - d;
  }

  lemma {:induction false} WindowIsSlice(h: seq<real>, lo: real, hi: real)
    requires Descending(h)
    ensures exists i, j :: 0 <= i <= j <= |h| && Window(h, lo, hi) == h[i..j]
                           && forall k :: i <= k < j ==> lo < h[k] <= hi
  {
    if h == [] {
      assert Window(h, lo, hi) == h[0..0];
    } else {
      WindowIsSlice(h[1..], lo, hi);
      if lo < h[0] <= hi {
        WindowFromFront(h, lo, hi);
      } else {
        var i, j :| 0 <= i <= j <= |h| - 1 && Window(h[1..], lo, hi) == h[1..][i..j]
                    && forall k :: i <= k < j ==> lo < h[1..][k] <= hi;
        hide Window, Descending;
        SliceOfRest(h, i, j, lo, hi);
      }
    }
  }

  lemma SliceOfRest(h: seq<real>, i: nat, j: nat, lo: real, hi: real)
    requires h != [] && i <= j < |h| && forall k :: i <= k < j ==> lo < h[1..][k] <= hi
    ensures h[1..][i..j] == h[i + 1..j + 1] && forall k :: i + 1 <= k < j + 1 ==> lo < h[k] <= hi
  {
    assert h[1..][i..j] == h[i + 1..j + 1];
    forall k | i + 1 <= k < j + 1
      ensures lo < h[k] <= hi
    {
      assert h[k] == h[1..][k - 1];
    }
  }

  lemma {:induction false} WindowFromFront(h: seq<real>, lo: real, hi: real)
    requires Descending(h) && h != [] && h[0] <= hi
    ensures exists j :: 0 <= j <= |h| && Window(h, lo, hi) == h[0..j] && forall k :: 0 <= k < j ==> lo < h[k] <= hi
    decreases h
  {
    WindowIsRecent(h, lo, hi);
    RecentPrefix(h, lo);
    var j := |Recent(h, lo)|;
    assert h[0..j] == h[..j];
    forall k | 0 <= k < j
      ensures h[k] <= hi
    {
      assert h[k] <= h[0];
    }
  }

  lemma {:induction false} WindowIsRecent(h: seq<real>, lo: real, hi: real)
    requires AllBelow(h, hi) || (Descending(h) && h != [] && h[0] <= hi)
    ensures Window(h, lo, hi) == Recent(h, lo)
  {
    if h != [] {
      assert h[0] <= hi;
      assert AllBelow(h[1..], hi);
      WindowIsRecent(h[1..], lo, hi);
    }
  }

  lemma {:induction false} RecentIsWindow(h: seq<real>, lo: real, hi: real)
    requires AllBelow(h, hi)
    ensures Window(h, lo, hi) == Recent(h, lo)
  {
    if h != [] {
      RecentIsWindow(h[1..], lo, hi);
    }
  }

  lemma {:induction false} RecentStamps(h: seq<real>, lo: real, x: real)
    ensures multiset(Recent(h, lo))[x] == if lo < x then multiset(h)[x] else 0
  {
    if h != [] {
      RecentStamps(h[1..], lo, x);
      assert h == [h[0]] + h[1..];
    }
  }

  lemma {:induction false} WithoutStamps(h: seq<real>, ts: real, x: real)
    ensures multiset(Without(h, ts))[x] == if x != ts then multiset(h)[x] else 0
  {
    if h != [] {
      WithoutStamps(h[1..], ts, x);
      assert h == [h[0]] + h[1..];
    }
  }

  lemma {:induction false} WindowStamps(h: seq<real>, lo: real, hi: real, x: real)
    ensures multiset(Window(h, lo, hi))[x] == if lo < x <= hi then multiset(h)[x] else 0
  {
    if h != [] {
      WindowStamps(h[1..], lo, hi, x);
      assert h == [h[0]] + h[1..];
    }
  }

  /** What the lists hold: every stamp that belongs there as often as before, and no other. */
  lemma KeptStamps(h: seq<real>, lo: real, hi: real, x: real)
    ensures multiset(Window(h, lo, hi))[x] == if lo < x <= hi then multiset(h)[x] else 0
    ensures multiset(Recent(h, lo))[x] == if lo < x then multiset(h)[x] else 0
    ensures multiset(Without(h, lo))[x] == if x != lo then multiset(h)[x] else 0
  {
    WindowStamps(h, lo, hi, x);
    RecentStamps(h, lo, x);
    WithoutStamps(h, lo, x);
  }

  // ---------- Part of a list ----------

  /** `a` is `b` with some elements left out. */
  ghost predicate Within(a: seq<real>, b: seq<real>) {
    a == [] || (b != [] && (Within(a, b[1..]) || (a[0] == b[0] && Within(a[1..], b[1..]))))
  }

  lemma {:induction false} WithinWindow(a: seq<real>, b: seq<real>, lo: real, hi: real)
    requires Within(a, b)
    ensures |Window(a, lo, hi)| <= |Window(b, lo, hi)|
    decreases |b|
  {
    if a != [] {
      if Within(a, b[1..]) {
        WithinWindow(a, b[1..], lo, hi);
      } else {
        WithinWindow(a[1..], b[1..], lo, hi);
      }
    }
  }

  lemma {:induction false} WithinWithout(a: seq<real>, b: seq<real>, ts: real)
    requires Within(a, b) && ts !in a
    ensures Within(a, Without(b, ts))
    decreases |b|
  {
    if a != [] {
      if Within(a, b[1..]) {
        WithinWithout(a, b[1..], ts);
        if b[0] != ts {
          assert Without(b, ts)[1..] == Without(b[1..], ts);
        }
      } else {
        assert ts !in a[1..];
        WithinWithout(a[1..], b[1..], ts);
        assert Without(b, ts)[1..] == Without(b[1..], ts);
      }
    }
  }

  lemma WithinCons(a: seq<real>, b: seq<real>, x: real)
    requires Within(a, b)
    ensures Within(a, [x] + b) && Within([x] + a, [x] + b)
  {
    assert ([x] + b)[1..] == b && ([x] + a)[1..] == a;
  }

  lemma {:induction false} WithinMember(a: seq<real>, b: seq<real>, x: real)
    requires Within(a, b) && x in a
    ensures x in b
    decreases |b|
  {
    if Within(a, b[1..]) {
      WithinMember(a, b[1..], x);
    } else if a[0] != x {
      WithinMember(a[1..], b[1..], x);
    }
  }

  // ---------- The TTL entry and the log it stands for ----------

  /** `cache.get(key, [])` at time `t`. */
  function Read(e: Option<Entry>, t: real): seq<real> {
    if e.Some? && e.value.expires > t then e.value.history else []
  }

  /** `cache.set(key, h, timeout)` at time `t`: read back until the timeout has passed. */
  function Stored(h: seq<real>, timeout: real, t: real): (e: Option<Entry>)
    ensures forall u :: Read(e, u) == if u < t + timeout then h else []
  {
    Some(Entry(h, t + timeout))
  }

  /** The entry outlives every hit it holds. */
  ghost predicate Covers(e: Option<Entry>, d: real) {
    e.Some? ==> forall i :: 0 <= i < |e.value.history| ==> e.value.history[i] + d <= e.value.expires
  }

  /** The list `h` and the log show the same hits to anyone looking at time `t`. */
  ghost predicate Agree(h: seq<real>, log: seq<real>, d: real, t: real) {
    Recent(h, t - d) == Recent(log, t - d)
  }

  /** One key of the limiter: the entry is ordered, long-lived enough, and agrees with the log. */
  ghost predicate Represents(e: Option<Entry>, log: seq<real>, rate: Rate, t: real) {
    && Covers(e, rate.duration)
    && (e.Some? ==> Descending(e.value.history))
    && Descending(log)
    && Agree(Read(e, t), log, rate.duration, t)
  }

  /** No hit of the entry or of the log is later than `t`. */
  ghost predicate Bounded(e: Option<Entry>, log: seq<real>, t: real) {
    (e.Some? ==> AllBelow(e.value.history, t)) && AllBelow(log, t)
  }

  lemma BelowLater(h: seq<real>, t: real, now: real)
    requires AllBelow(h, t) && t <= now
    ensures AllBelow(h, now)
  {
  }

  /** Agreement is never lost by waiting. */
  lemma AgreeLater(h: seq<real>, log: seq<real>, d: real, t: real, later: real)
    requires Agree(h, log, d, t) && t <= later
    ensures Agree(h, log, d, later)
  {
    RecentRecent(h, t - d, later - d);
    RecentRecent(log, t - d, later - d);
  }

  /** An entry that the cache drops held only expired hits. */
  lemma RepresentsLater(e: Option<Entry>, log: seq<real>, rate: Rate, t: real, later: real)
    requires Represents(e, log, rate, t) && t <= later
    ensures Represents(e, log, rate, later)
  {
    AgreeLater(Read(e, t), log, rate.duration, t, later);
    if e.Some? && t < e.value.expires <= later {
      RecentNone(e.value.history, later - rate.duration);
    }
  }

  /** An allowed hit at `now`, decided on a list `h` that agrees with the log. */
  lemma GrantKeeps(h: seq<real>, log: seq<real>, rate: Rate, now: real, written: real)
    requires Descending(h) && AllBelow(h, now) && Descending(log) && AllBelow(log, now)
    requires Agree(h, log, rate.duration, now) && now <= written
    ensures Pruned(h, now - rate.duration) == Recent(log, now - rate.duration)
    ensures var e := Stored([now] + Pruned(h, now - rate.duration), rate.duration, written);
            Represents(e, [now] + log, rate, written) && Bounded(e, [now] + log, now)
  {
    hide Recent, Pruned, Descending, AllBelow, Represents;
    var d := rate.duration;
    PrunedOfDescending(h, now - d);
    var p := Pruned(h, now - d);
    PrunedOrdered(h, now - d, now);
    Prepended(p, now);
    Prepended(log, now);
    RecentRecent(log, now - d, now - d);
    assert Agree(p, log, d, now);
    AgreeLater(p, log, d, now, written);
    RecentAppend([now], p, written - d);
    RecentAppend([now], log, written - d);
    StoredRepresents([now] + p, [now] + log, rate, now, written);
  }

  lemma Prepended(h: seq<real>, now: real)
    requires Descending(h) && AllBelow(h, now)
    ensures Descending([now] + h) && AllBelow([now] + h, now)
  {
  }

  /** Rolling back on a list that agrees with the log is rolling back on the log. */
  lemma RollbackKeeps(h: seq<real>, log: seq<real>, rate: Rate, ts: real, t: real, written: real)
    requires Descending(h) && AllBelow(h, t) && Descending(log) && AllBelow(log, t)
    requires Agree(h, log, rate.duration, written) && t <= written
    ensures var e := Stored(Without(h, ts), rate.duration, written);
            Represents(e, Without(log, ts), rate, written) && Bounded(e, Without(log, ts), t)
  {
    hide Recent, Without, Descending, AllBelow, Represents;
    var d := rate.duration;
    RecentWithout(h, ts, written - d);
    RecentWithout(log, ts, written - d);
    WithoutFacts(h, ts);
    WithoutFacts(log, ts);
    WithoutBelow(h, ts, t);
    WithoutBelow(log, ts, t);
    StoredRepresents(Without(h, ts), Without(log, ts), rate, t, written);
  }

  lemma WithoutBelow(h: seq<real>, ts: real, t: real)
    requires AllBelow(h, t)
    ensures AllBelow(Without(h, ts), t)
  {
    WithoutFacts(h, ts);
    forall i | 0 <= i < |Without(h, ts)|
      ensures Without(h, ts)[i] <= t
    {
      assert Without(h, ts)[i] in h;
    }
  }

  /** A list stored with the rate's duration as its timeout lives as long as its hits do. */
  lemma StoredRepresents(h: seq<real>, log: seq<real>, rate: Rate, t: real, written: real)
    requires Descending(h) && AllBelow(h, t) && Descending(log) && AllBelow(log, t) && t <= written
    requires Agree(h, log, rate.duration, written)
    ensures Represents(Stored(h, rate.duration, written), log, rate, written)
    ensures Bounded(Stored(h, rate.duration, written), log, t)
  {
    if rate.duration <= 0.0 {
      RecentNone(log, written - rate.duration);
    }
  }
}
