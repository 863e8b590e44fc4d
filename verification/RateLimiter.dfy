/** The sliding-window limiter over a shared TTL cache, one request at a time. The ghost log
    never forgets; `Valid` ties it to the cache entries. */
module RateLimiter {
  import opened Options
  import opened RateHistory

  type Rates = map<string, Rate>
  type Log = map<string, seq<real>>

  datatype SingleUsage = SingleUsage(key: string, duration: real, timestamp: real)

  /** `RateLimited` is the exception that replaces a refusal when the caller asks for one. */
  datatype Verdict<+T> = Granted(usage: T) | Refused | RateLimited

  // ---------- Cache keys ----------

  datatype Source = Ip(address: string) | User(pk: string) | Key(hash: string)

  function CacheKey(action: string, source: Source): string {
    "allauth:rl:" + action + ":" + Tail(source)
  }

  function Tail(source: Source): string {
    match source
    case Ip(address) => "ip:" + address
    case User(pk) => "user:" + pk
    case Key(hash) => hash
  }

  /** A hex digest has no colon. */
  predicate Digest(source: Source) {
    source.Key? ==> ':' !in source.hash
  }

  lemma SameTail(p: string, x: string, y: string)
    ensures p + x == p + y <==> x == y
  {
    assert (p + x)[|p|..] == x && (p + y)[|p|..] == y;
  }

  /** Two texts that start without a colon agree up to their first colon. */
  lemma SameHead(a: string, x: string, b: string, y: string)
    requires ':' !in a && ':' !in b
    ensures a + ":" + x == b + ":" + y <==> a == b && x == y
  {
    var s, t := a + ":" + x, b + ":" + y;
    assert s[|a|] == ':' && t[|b|] == ':';
    assert |a| < |b| ==> t[|a|] == b[|a|] && b[|a|] in b;
    assert |b| < |a| ==> s[|b|] == a[|b|] && a[|b|] in a;
    if s == t {
      assert a == s[..|a|] == t[..|b|] == b;
      assert x == s[|a| + 1..] == t[|b| + 1..] == y;
    }
  }

  /** Within one action, two sources share a cache entry if and only if they are the same: the same
      address, the same user, or the same hashed key. */
  lemma DistinctPerDistinctKeys(action: string, s: Source, t: Source)
    requires Digest(s) && Digest(t)
    ensures CacheKey(action, s) == CacheKey(action, t) <==> s == t
  {
    var x, y := Tail(s), Tail(t);
    SameTail("allauth:rl:" + action + ":", x, y);
    TailsDiffer(s, t);
  }

  lemma TailsDiffer(s: Source, t: Source)
    requires Digest(s) && Digest(t)
    ensures Tail(s) == Tail(t) <==> s == t
  {
    var x, y := Tail(s), Tail(t);
    assert s.Ip? ==> x[0] == 'i' && x[2] == ':' && x[3..] == s.address;
    assert s.User? ==> x[0] == 'u' && x[4] == ':' && x[5..] == s.pk;
    assert t.Ip? ==> y[0] == 'i' && y[2] == ':' && y[3..] == t.address;
    assert t.User? ==> y[0] == 'u' && y[4] == ':' && y[5..] == t.pk;
  }

  /** And different actions never share an entry, as their names have no colon. */
  lemma DistinctActionsDistinctKeys(a: string, s: Source, b: string, t: Source)
    requires ':' !in a && ':' !in b && Digest(s) && Digest(t)
    ensures CacheKey(a, s) == CacheKey(b, t) <==> a == b && s == t
  {
    var x, y := a + ":" + Tail(s), b + ":" + Tail(t);
    assert CacheKey(a, s) == "allauth:rl:" + x && CacheKey(b, t) == "allauth:rl:" + y;
    SameTail("allauth:rl:", x, y);
    SameHead(a, Tail(s), b, Tail(t));
    TailsDiffer(s, t);
  }

  // ---------- What a consumption does to the log ----------

  /** One rate's turn in a request: its cache key, whether `cache_lock` yields true, and the
      clock reading inside the lock. */
  datatype Turn = Turn(key: string, locked: bool, at: real)

  ghost predicate Known(rates: Rates, log: Log, turns: seq<Turn>) {
    log.Keys == rates.Keys && forall i :: 0 <= i < |turns| ==> turns[i].key in rates
  }

  ghost predicate Distinct(turns: seq<Turn>) {
    forall i, j :: 0 <= i < j < |turns| ==> turns[i].key != turns[j].key
  }

  ghost function Find(turns: seq<Turn>, key: string, n: nat): (i: nat)
    requires n <= |turns|
    ensures i <= n && (i < n ==> turns[i].key == key)
    ensures i == n ==> forall j :: 0 <= j < n ==> turns[j].key != key
  {
    if n == 0 then 0
    else
      var i := Find(turns, key, n - 1);
      if i < n - 1 || turns[n - 1].key == key then i else n
  }

  /** The clock never goes back; two turns may read the same tick. */
  ghost predicate NonDecreasing(turns: seq<Turn>, from: real) {
    && (forall i :: 0 <= i < |turns| ==> from <= turns[i].at)
    && forall i, j :: 0 <= i < j < |turns| ==> turns[i].at <= turns[j].at
  }

  /** The clock is strictly increasing: what a rollback needs to take back no more than its own hit. */
  ghost predicate Increasing(turns: seq<Turn>, from: real) {
    && (forall i :: 0 <= i < |turns| ==> from < turns[i].at)
    && forall i, j :: 0 <= i < j < |turns| ==> turns[i].at < turns[j].at
  }

  ghost function Last(turns: seq<Turn>, from: real): real {
    if turns == [] then from else turns[|turns| - 1].at
  }

  ghost predicate AllLocked(turns: seq<Turn>) {
    forall i :: 0 <= i < |turns| ==> turns[i].locked
  }

  /** Room for this turn's hit, judged on the log that never forgets. */
  ghost predicate Room(rates: Rates, log: Log, turn: Turn)
    requires turn.key in rates && turn.key in log
  {
    turn.locked && |Recent(log[turn.key], turn.at - rates[turn.key].duration)| < rates[turn.key].amount
  }

  /** The log after charging the first `n` rates; a dry run charges nothing. */
  ghost function Charged(log: Log, turns: seq<Turn>, dryRun: bool, n: nat): (r: Log)
    requires n <= |turns| && forall i :: 0 <= i < |turns| ==> turns[i].key in log
    ensures r.Keys == log.Keys
  {
    if n == 0 || dryRun then log
    else
      var before, turn := Charged(log, turns, dryRun, n - 1), turns[n - 1];
      before[turn.key := [turn.at] + before[turn.key]]
  }

  /** How many leading rates are granted, each judged after the previous ones were charged. */
  ghost function Grants(rates: Rates, log: Log, turns: seq<Turn>, dryRun: bool, n: nat): (r: nat)
    requires Known(rates, log, turns) && n <= |turns|
    ensures n <= r <= |turns|
    decreases |turns| - n
  {
    if n < |turns| && Room(rates, Charged(log, turns, dryRun, n), turns[n])
    then Grants(rates, log, turns, dryRun, n + 1)
    else n
  }

  lemma GrantsStep(rates: Rates, log: Log, turns: seq<Turn>, dryRun: bool, n: nat)
    requires Known(rates, log, turns) && n <= |turns|
    ensures n == 0 ==> Charged(log, turns, dryRun, n) == log
    ensures n < |turns| ==>
      var before, turn := Charged(log, turns, dryRun, n), turns[n];
      Charged(log, turns, dryRun, n + 1)
      == if dryRun then before else before[turn.key := [turn.at] + before[turn.key]]
    ensures Grants(rates, log, turns, dryRun, n) ==
      if n < |turns| && Room(rates, Charged(log, turns, dryRun, n), turns[n])
      then Grants(rates, log, turns, dryRun, n + 1) else n
  {
    hide Room;
  }

  /** The granted rates are the leading ones with room, and the next one has none. */
  lemma {:induction false} GrantsExact(rates: Rates, log: Log, turns: seq<Turn>, dryRun: bool, n: nat)
    requires Known(rates, log, turns) && n <= |turns|
    ensures var r := Grants(rates, log, turns, dryRun, n);
      && (forall i :: n <= i < r ==> Room(rates, Charged(log, turns, dryRun, i), turns[i]))
      && (r < |turns| ==> !Room(rates, Charged(log, turns, dryRun, r), turns[r]))
    decreases |turns| - n
  {
    hide Room, Charged;
    if n < |turns| && Room(rates, Charged(log, turns, dryRun, n), turns[n]) {
      GrantsExact(rates, log, turns, dryRun, n + 1);
    }
  }

  lemma {:induction false} ChargedAt(log: Log, turns: seq<Turn>, n: nat, key: string)
    requires n <= |turns| && key in log && Distinct(turns)
    requires forall i :: 0 <= i < |turns| ==> turns[i].key in log
    ensures (forall i :: 0 <= i < n ==> turns[i].key != key) ==> Charged(log, turns, false, n)[key] == log[key]
    ensures forall i :: 0 <= i < n && turns[i].key == key ==>
      Charged(log, turns, false, n)[key] == [turns[i].at] + log[key]
  {
    if n > 0 {
      ChargedAt(log, turns, n - 1, key);
    }
  }

  /** A dry run grants as many rates as the real run: with one rate per `per`, charging one
      rate does not change the room of the others. */
  lemma {:induction false} DryRunAgrees(rates: Rates, log: Log, turns: seq<Turn>, n: nat)
    requires Known(rates, log, turns) && n <= |turns| && Distinct(turns)
    ensures Grants(rates, log, turns, true, n) == Grants(rates, log, turns, false, n)
    decreases |turns| - n
  {
    hide Recent;
    if n < |turns| {
      ChargedAt(log, turns, n, turns[n].key);
      DryRunAgrees(rates, log, turns, n + 1);
    }
  }

  /** Two rates with the same `per` share an entry, and then the dry run may grant what the
      real run denies: one free slot, asked for twice. */
  lemma DryRunNeedsDistinctKeys()
    ensures exists rates: Rates, log: Log, turns ::
      && Known(rates, log, turns)
      && Grants(rates, log, turns, true, 0) == |turns|
      && Grants(rates, log, turns, false, 0) < |turns|
  {
    var rates: Rates := map["k" := Rate(1, 60.0)];
    var log: Log := map["k" := []];
    var turns := [Turn("k", true, 1.0), Turn("k", true, 2.0)];
    GrantsStep(rates, log, turns, true, 0);
    GrantsStep(rates, log, turns, true, 1);
    assert Grants(rates, log, turns, true, 0) == 2;
    var c := Charged(log, turns, false, 1);
    GrantsStep(rates, log, turns, false, 0);
    assert c["k"] == [1.0];
    assert Recent([1.0], 2.0 - 60.0) == [1.0] + Recent([], 2.0 - 60.0);
    assert !Room(rates, c, turns[1]);
  }

  function Usage(rates: Rates, turn: Turn): SingleUsage
    requires turn.key in rates
  {
    SingleUsage(turn.key, rates[turn.key].duration, turn.at)
  }

  ghost predicate UsagesOf(rates: Rates, turns: seq<Turn>, usages: seq<SingleUsage>) {
    && |usages| <= |turns|
    && forall i :: 0 <= i < |usages| ==> turns[i].key in rates && usages[i] == Usage(rates, turns[i])
  }

  /** The log after rolling back the first `n` usages, each in a turn of its own. */
  ghost function Undone(log: Log, usages: seq<SingleUsage>, again: seq<Turn>, n: nat): (r: Log)
    requires n <= |usages| == |again|
    requires forall i :: 0 <= i < |usages| ==> usages[i].key in log
    ensures r.Keys == log.Keys
  {
    if n == 0 then log
    else
      var before, u := Undone(log, usages, again, n - 1), usages[n - 1];
      if again[n - 1].locked then before[u.key := Without(before[u.key], u.timestamp)] else before
  }

  lemma {:induction false} UndoneAt(log: Log, usages: seq<SingleUsage>, again: seq<Turn>, n: nat, key: string)
    requires n <= |usages| == |again| && key in log
    requires forall i :: 0 <= i < |usages| ==> usages[i].key in log
    requires forall i, j :: 0 <= i < j < |usages| ==> usages[i].key != usages[j].key
    ensures (forall i :: 0 <= i < n ==> usages[i].key != key) ==> Undone(log, usages, again, n)[key] == log[key]
    ensures forall i :: 0 <= i < n && usages[i].key == key ==>
      Undone(log, usages, again, n)[key] == if again[i].locked then Without(log[key], usages[i].timestamp) else log[key]
  {
    hide Without;
    if n > 0 {
      UndoneAt(log, usages, again, n - 1, key);
    }
  }

  /** The rollback of turn `i` gets its lock and finds no older hit with its stamp. */
  ghost predicate Clean(log: Log, turn: Turn, again: Turn)
    requires turn.key in log
  {
    again.locked && turn.at !in log[turn.key]
  }

  /** A rollback undoes a consumption completely if and only if it gets every lock and none of the
      stamps was there before. */
  lemma RollbackUndoesConsumeIff(rates: Rates, log: Log, turns: seq<Turn>, usages: seq<SingleUsage>, again: seq<Turn>)
    requires Known(rates, log, turns) && Distinct(turns)
    requires UsagesOf(rates, turns, usages) && |usages| == |turns| == |again|
    ensures Undone(Charged(log, turns, false, |turns|), usages, again, |turns|) == log
      <==> forall i :: 0 <= i < |turns| ==> Clean(log, turns[i], again[i])
  {
    hide Charged, Undone, Without, Clean;
    var after := Undone(Charged(log, turns, false, |turns|), usages, again, |turns|);
    forall i | 0 <= i < |turns|
      ensures after[turns[i].key] == log[turns[i].key] <==> Clean(log, turns[i], again[i])
    {
      ChargedTurnUndoneIff(rates, log, turns, usages, again, i);
    }
    if forall i :: 0 <= i < |turns| ==> Clean(log, turns[i], again[i]) {
      forall key | key in log
        ensures after[key] == log[key]
      {
        var i := Find(turns, key, |turns|);
        if i == |turns| {
          OtherKeyUndone(rates, log, turns, usages, again, key);
        }
      }
    }
  }

  lemma ChargedTurnUndoneIff(rates: Rates, log: Log, turns: seq<Turn>, usages: seq<SingleUsage>, again: seq<Turn>,
                             i: nat)
    requires Known(rates, log, turns) && Distinct(turns) && i < |turns|
    requires UsagesOf(rates, turns, usages) && |usages| == |turns| == |again|
    ensures Undone(Charged(log, turns, false, |turns|), usages, again, |turns|)[turns[i].key] == log[turns[i].key]
      <==> Clean(log, turns[i], again[i])
  {
    hide Charged, Undone, Without;
    var key := turns[i].key;
    var charged := Charged(log, turns, false, |turns|);
    ChargedAt(log, turns, |turns|, key);
    UndoneAt(charged, usages, again, |turns|, key);
    assert usages[i] == Usage(rates, turns[i]);
    WithoutHeadIff(log[key], turns[i].at);
    assert charged[key] == [turns[i].at] + log[key];
    assert |charged[key]| != |log[key]|;
  }

  lemma OtherKeyUndone(rates: Rates, log: Log, turns: seq<Turn>, usages: seq<SingleUsage>, again: seq<Turn>,
                       key: string)
    requires Known(rates, log, turns) && Distinct(turns) && key in log
    requires forall i :: 0 <= i < |turns| ==> turns[i].key != key
    requires UsagesOf(rates, turns, usages) && |usages| == |turns| == |again|
    ensures Undone(Charged(log, turns, false, |turns|), usages, again, |turns|)[key] == log[key]
  {
    UsageKeys(rates, log, turns, usages);
    hide Charged, Undone, Without, UsagesOf, Usage;
    assert forall i :: 0 <= i < |usages| ==> usages[i].key != key;
    ChargedAt(log, turns, |turns|, key);
    UndoneAt(Charged(log, turns, false, |turns|), usages, again, |turns|, key);
  }

  lemma UsageKeys(rates: Rates, log: Log, turns: seq<Turn>, usages: seq<SingleUsage>)
    requires Known(rates, log, turns) && Distinct(turns) && UsagesOf(rates, turns, usages) && |usages| == |turns|
    ensures forall i :: 0 <= i < |usages| ==> usages[i].key in log && usages[i].key == turns[i].key
    ensures forall i, j :: 0 <= i < j < |usages| ==> usages[i].key != usages[j].key
  {
    assert forall i :: 0 <= i < |usages| ==> usages[i] == Usage(rates, turns[i]);
  }

  /** Taking the newest hit back by its stamp leaves the list as it was exactly when it is the only one. */
  lemma WithoutHeadIff(h: seq<real>, now: real)
    ensures Without([now] + h, now) == h <==> now !in h
  {
    assert ([now] + h)[1..] == h;
    WithoutFacts(h, now);
  }

  /** With a strictly increasing clock every stamp is new, so a rollback with all locks undoes a
      consumption completely. */
  lemma RollbackUndoesConsume(rates: Rates, log: Log, turns: seq<Turn>, usages: seq<SingleUsage>, again: seq<Turn>,
                              from: real)
    requires Known(rates, log, turns) && Distinct(turns) && Increasing(turns, from)
    requires forall key :: key in log ==> AllBelow(log[key], from)
    requires UsagesOf(rates, turns, usages) && |usages| == |turns| == |again| && AllLocked(again)
    ensures Undone(Charged(log, turns, false, |turns|), usages, again, |turns|) == log
  {
    hide Charged, Undone;
    forall i | 0 <= i < |turns|
      ensures Clean(log, turns[i], again[i])
    {
      assert AllBelow(log[turns[i].key], from);
    }
    RollbackUndoesConsumeIff(rates, log, turns, usages, again);
  }

  // ---------- The limiter ----------

  function EntryOf(entries: map<string, Entry>, key: string): Option<Entry> {
    if key in entries then Some(entries[key]) else None
  }

  ghost predicate KeyOk(rate: Rate, e: Option<Entry>, hits: seq<real>, clock: real) {
    Represents(e, hits, rate, clock) && Bounded(e, hits, clock) && Spaced(hits, rate.amount, rate.duration)
  }

  /** Every key of the cache stands for its log, and every log is spaced. */
  ghost predicate Faithful(rates: Rates, entries: map<string, Entry>, log: Log, clock: real) {
    && log.Keys == rates.Keys
    && forall key {:trigger KeyOk(rates[key], EntryOf(entries, key), log[key], clock)} ::
         key in rates ==> KeyOk(rates[key], EntryOf(entries, key), log[key], clock)
  }

  lemma FaithfulLater(rates: Rates, entries: map<string, Entry>, log: Log, clock: real, now: real)
    requires Faithful(rates, entries, log, clock) && clock <= now
    ensures Faithful(rates, entries, log, now)
  {
    forall key | key in rates
      ensures KeyOk(rates[key], EntryOf(entries, key), log[key], now)
    {
      assert KeyOk(rates[key], EntryOf(entries, key), log[key], clock);
      RepresentsLater(EntryOf(entries, key), log[key], rates[key], clock, now);
    }
  }

  lemma FaithfulUpdate(rates: Rates, entries: map<string, Entry>, log: Log, clock: real,
                       key: string, entry: Entry, hits: seq<real>)
    requires Faithful(rates, entries, log, clock) && key in rates
    requires KeyOk(rates[key], Some(entry), hits, clock)
    ensures Faithful(rates, entries[key := entry], log[key := hits], clock)
  {
    hide KeyOk;
    var entries', log' := entries[key := entry], log[key := hits];
    forall k | k in rates
      ensures KeyOk(rates[k], EntryOf(entries', k), log'[k], clock)
    {
      if k != key {
        assert EntryOf(entries', k) == EntryOf(entries, k) && log'[k] == log[k];
      }
    }
  }

  lemma FaithfulClear(rates: Rates, entries: map<string, Entry>, log: Log, clock: real, key: string)
    requires Faithful(rates, entries, log, clock) && key in rates
    ensures Faithful(rates, entries - {key}, log[key := []], clock)
  {
    EmptyHistory(clock - rates[key].duration, clock);
    assert KeyOk(rates[key], None, [], clock);
    hide KeyOk;
    var entries', log' := entries - {key}, log[key := []];
    forall k | k in rates
      ensures KeyOk(rates[k], EntryOf(entries', k), log'[k], clock)
    {
      if k != key {
        assert EntryOf(entries', k) == EntryOf(entries, k) && log'[k] == log[k];
      }
    }
  }

  /** The new entry that `_consume_single_rate` writes for an allowed hit. */
  lemma GrantedKeyOk(rate: Rate, e: Option<Entry>, hits: seq<real>, clock: real, now: real)
    requires KeyOk(rate, e, hits, clock) && clock <= now
    ensures Descending(Read(e, now))
    ensures Recent(Read(e, now), now - rate.duration) == Recent(hits, now - rate.duration)
    ensures |Recent(hits, now - rate.duration)| < rate.amount ==>
      KeyOk(rate, Stored([now] + Pruned(Read(e, now), now - rate.duration), rate.duration, now), [now] + hits, now)
  {
    hide Recent, Pruned, Descending, AllBelow, Spaced;
    RepresentsLater(e, hits, rate, clock, now);
    EmptyHistory(now - rate.duration, clock);
    BelowLater(Read(e, now), clock, now);
    BelowLater(hits, clock, now);
    PrunedOfDescending(Read(e, now), now - rate.duration);
    if |Recent(hits, now - rate.duration)| < rate.amount {
      SpacedGrant(hits, now, rate.amount, rate.duration);
      GrantKeeps(Read(e, now), hits, rate, now, now);
    }
  }

  /** One allowed hit: the stored list is the visible history with `now` in front. */
  function Hit(rates: Rates, entries: map<string, Entry>, key: string, now: real): Entry
    requires key in rates
  {
    Entry([now] + Recent(Read(EntryOf(entries, key), now), now - rates[key].duration), now + rates[key].duration)
  }

  lemma ConsumeFaithful(rates: Rates, entries: map<string, Entry>, log: Log, clock: real, key: string, now: real)
    requires Faithful(rates, entries, log, clock) && key in rates && clock <= now
    ensures Faithful(rates, entries, log, now)
    ensures var h := Read(EntryOf(entries, key), now);
            Pruned(h, now - rates[key].duration) == Recent(h, now - rates[key].duration)
    ensures |Recent(Read(EntryOf(entries, key), now), now - rates[key].duration)|
            == |Recent(log[key], now - rates[key].duration)|
    ensures Room(rates, log, Turn(key, true, now)) ==>
      Faithful(rates, entries[key := Hit(rates, entries, key, now)], log[key := [now] + log[key]], now)
  {
    hide KeyOk, Recent, Pruned, Descending;
    FaithfulLater(rates, entries, log, clock, now);
    var rate, e := rates[key], EntryOf(entries, key);
    GrantedKeyOk(rate, e, log[key], clock, now);
    PrunedOfDescending(Read(e, now), now - rate.duration);
    if Room(rates, log, Turn(key, true, now)) {
      FaithfulUpdate(rates, entries, log, now, key, Hit(rates, entries, key, now), [now] + log[key]);
    }
  }

  lemma RolledBackKeyOk(rate: Rate, e: Option<Entry>, hits: seq<real>, clock: real, ts: real)
    requires KeyOk(rate, e, hits, clock)
    ensures KeyOk(rate, Stored(Without(Read(e, clock), ts), rate.duration, clock), Without(hits, ts), clock)
  {
    RollbackKeeps(Read(e, clock), hits, rate, ts, clock, clock);
    SpacedWithout(hits, ts, rate.amount, rate.duration);
  }

  /** `apply_rate`: pops expired hits off the tail, decides, and records an allowed hit. */
  method ApplyRate(history: seq<real>, now: real, rate: Rate, dryRun: bool) returns (allowed: bool, kept: seq<real>)
    ensures allowed == (|Pruned(history, now - rate.duration)| < rate.amount)
    ensures kept == (if allowed && !dryRun then [now] else []) + Pruned(history, now - rate.duration)
    ensures Descending(history) ==> allowed == (|Recent(history, now - rate.duration)| < rate.amount)
  {
    kept := history;
    while kept != [] && kept[|kept| - 1] <= now - rate.duration
      invariant Pruned(kept, now - rate.duration) == Pruned(history, now - rate.duration)
    {
      kept := kept[..|kept| - 1];
    }
    allowed := |kept| < rate.amount;
    if Descending(history) {
      PrunedOfDescending(history, now - rate.duration);
    }
    if allowed && !dryRun {
      kept := [now] + kept;
    }
  }

  class Limiter {
    const rates: Rates
    var entries: map<string, Entry>
    ghost var log: Log
    ghost var clock: real

    /** The hits of `key` that are stored and unexpired at time `t`. */
    ghost function Visible(key: string, t: real): seq<real>
      requires key in rates
      reads this
    {
      Recent(Read(EntryOf(entries, key), t), t - rates[key].duration)
    }

    ghost predicate Valid()
      reads this
    {
      log.Keys == rates.Keys && Faithful(rates, entries, log, clock)
    }

    constructor (rates: Rates, now: real)
      ensures Valid() && this.rates == rates && clock == now && entries == map[]
      ensures log == map key | key in rates :: []
    {
      this.rates := rates;
      entries := map[];
      log := map key | key in rates :: [];
      clock := now;
    }

    /** The stored, unexpired history is the log's, now and at every later instant. */
    lemma VisibleIsLog(key: string, t: real)
      requires Valid() && key in rates && clock <= t
      ensures Visible(key, t) == Recent(log[key], t - rates[key].duration)
    {
      FaithfulLater(rates, entries, log, clock, t);
      assert KeyOk(rates[key], EntryOf(entries, key), log[key], t);
    }

    lemma LogBelow()
      requires Valid()
      ensures forall key :: key in log ==> AllBelow(log[key], clock)
    {
      forall key | key in log
        ensures AllBelow(log[key], clock)
      {
        assert KeyOk(rates[key], EntryOf(entries, key), log[key], clock);
      }
    }

    /** No window of a rate's length ever holds more un-rolled-back hits than its amount. */
    lemma NeverExceeded(key: string, t: real)
      requires Valid() && key in rates
      ensures var hits := Window(log[key], t - rates[key].duration, t);
        hits == [] || |hits| <= rates[key].amount
    {
      assert KeyOk(rates[key], EntryOf(entries, key), log[key], clock);
      WindowBound(log[key], rates[key].amount, rates[key].duration, t);
    }

    /** Seen at a reading not before the last, the unexpired hits are those in the window up to it. */
    lemma InWindow(turn: Turn)
      requires Valid() && turn.key in rates && clock <= turn.at
      ensures var d := rates[turn.key].duration;
        Window(log[turn.key], turn.at - d, turn.at) == Recent(log[turn.key], turn.at - d)
    {
      hide Window, Recent;
      assert KeyOk(rates[turn.key], EntryOf(entries, turn.key), log[turn.key], clock);
      RecentIsWindow(log[turn.key], turn.at - rates[turn.key].duration, turn.at);
    }

    method ConsumeSingle(turn: Turn, dryRun: bool, raise: bool) returns (v: Verdict<SingleUsage>)
      requires Valid() && turn.key in rates && clock <= turn.at
      modifies this
      ensures Valid() && clock == turn.at
      ensures v.Granted? <==>
        && turn.locked
        && |Window(old(log)[turn.key], turn.at - rates[turn.key].duration, turn.at)| < rates[turn.key].amount
      ensures v == if Room(rates, old(log), turn) then Granted(Usage(rates, turn))
                   else if raise then RateLimited else Refused
      ensures log == if v.Granted? && !dryRun then old(log)[turn.key := [turn.at] + old(log)[turn.key]] else old(log)
      ensures entries == if v.Granted? && !dryRun
                         then old(entries)[turn.key := Hit(rates, old(entries), turn.key, turn.at)]
                         else old(entries)
      ensures v.Granted? && !dryRun ==>
        entries[turn.key] == Entry([turn.at] + old(Visible(turn.key, turn.at)), turn.at + rates[turn.key].duration)
    {
      hide KeyOk, Recent, Pruned, Descending, Faithful;
      var key, now := turn.key, turn.at;
      ConsumeFaithful(rates, entries, log, clock, key, now);
      InWindow(turn);
      clock := now;
      if !turn.locked {
        return if raise then RateLimited else Refused;
      }
      var history := Get(key, now);
      var allowed, kept := ApplyRate(history, now, rates[key], dryRun);
      if allowed {
        v := Granted(SingleUsage(key, rates[key].duration, now));
        if !dryRun {
          entries := entries[key := Entry(kept, now + rates[key].duration)];
          log := log[key := [now] + log[key]];
        }
      } else {
        v := if raise then RateLimited else Refused;
      }
    }

    /** `cache.get(key, [])`. */
    method Get(key: string, now: real) returns (history: seq<real>)
      ensures history == Read(EntryOf(entries, key), now)
    {
      history := if key in entries && entries[key].expires > now then entries[key].history else [];
    }

    method RollbackSingle(usage: SingleUsage, locked: bool, now: real)
      requires Valid() && usage.key in rates && usage.duration == rates[usage.key].duration && clock <= now
      modifies this
      ensures Valid() && clock == now
      ensures log == if locked then old(log)[usage.key := Without(old(log)[usage.key], usage.timestamp)] else old(log)
      ensures entries == if !locked then old(entries) else
        var history := Read(EntryOf(old(entries), usage.key), now);
        old(entries)[usage.key := Entry(Without(history, usage.timestamp), now + usage.duration)]
    {
      hide KeyOk;
      FaithfulLater(rates, entries, log, clock, now);
      clock := now;
      if locked {
        var key := usage.key;
        RolledBackKeyOk(rates[key], EntryOf(entries, key), log[key], now, usage.timestamp);
        var history := Get(key, now);
        var rest := Filtered(history, usage.timestamp);
        var entry := Entry(rest, now + usage.duration);
        FaithfulUpdate(rates, entries, log, now, key, entry, Without(log[key], usage.timestamp));
        entries := entries[key := entry];
        log := log[key := Without(log[key], usage.timestamp)];
      }
    }

    /** `consume`: charges the rates in turn, and stops at the first that refuses. */
    method Consume(isGet: bool, limitGet: bool, turns: seq<Turn>, dryRun: bool, raise: bool)
      returns (v: Verdict<seq<SingleUsage>>)
      requires Valid() && Known(rates, log, turns) && NonDecreasing(turns, clock)
      modifies this
      ensures Valid() && old(clock) <= clock <= Last(turns, old(clock))
      ensures isGet && !limitGet ==> v == Granted([]) && log == old(log) && entries == old(entries)
      ensures !isGet || limitGet ==>
        var n := Grants(rates, old(log), turns, dryRun, 0);
        && (v.Granted? <==> n == |turns|)
        && (if v.Granted? then |v.usage| == n && UsagesOf(rates, turns, v.usage) else v.RateLimited? == raise)
        && log == Charged(old(log), turns, dryRun, n)
        && (dryRun ==> entries == old(entries) && log == old(log))
    {
      if isGet && !limitGet {
        return Granted([]);
      }
      hide Faithful, Room, Charged, Grants;
      var usage := ConsumeRates(turns, dryRun);
      v := if |usage| == |turns| then Granted(usage) else if raise then RateLimited else Refused;
    }

    /** The loop of `consume`: the usages granted before the first refusal. */
    method ConsumeRates(turns: seq<Turn>, dryRun: bool) returns (usage: seq<SingleUsage>)
      requires Valid() && Known(rates, log, turns) && NonDecreasing(turns, clock)
      modifies this
      ensures Valid() && old(clock) <= clock <= Last(turns, old(clock))
      ensures |usage| == Grants(rates, old(log), turns, dryRun, 0) && UsagesOf(rates, turns, usage)
      ensures log == Charged(old(log), turns, dryRun, |usage|)
      ensures dryRun ==> entries == old(entries)
    {
      hide Faithful, Room, Charged, Grants, Hit;
      ghost var start := log;
      GrantsStep(rates, log, turns, dryRun, 0);
      usage := [];
      for i := 0 to |turns|
        invariant Valid() && clock == Last(turns[..i], old(clock))
        invariant |usage| == i && UsagesOf(rates, turns, usage)
        invariant log == Charged(start, turns, dryRun, i)
        invariant Grants(rates, start, turns, dryRun, i) == Grants(rates, start, turns, dryRun, 0)
        invariant dryRun ==> entries == old(entries)
      {
        GrantsStep(rates, start, turns, dryRun, i);
        assert clock <= turns[i].at <= Last(turns, old(clock));
        var single := ConsumeSingle(turns[i], dryRun, false);
        if !single.Granted? {
          return;
        }
        usage := usage + [single.usage];
      }
      assert turns[..|turns|] == turns;
    }

    /** `RateLimitUsage.rollback`: one locked turn per usage. */
    method Rollback(usages: seq<SingleUsage>, again: seq<Turn>)
      requires Valid() && |usages| == |again| && NonDecreasing(again, clock)
      requires forall i :: 0 <= i < |usages| ==>
        usages[i].key in rates && usages[i].duration == rates[usages[i].key].duration
      modifies this
      ensures Valid() && clock == Last(again, old(clock))
      ensures log == Undone(old(log), usages, again, |usages|)
    {
      hide Faithful, Without;
      for i := 0 to |usages|
        invariant Valid() && clock == if i == 0 then old(clock) else again[i - 1].at
        invariant log == Undone(old(log), usages, again, i)
      {
        RollbackSingle(usages[i], again[i].locked, again[i].at);
      }
    }

    /** `clear` on one key starts a new epoch of its log. */
    method Clear(key: string, locked: bool, now: real)
      requires Valid() && key in rates && clock <= now
      modifies this
      ensures Valid() && clock == now
      ensures log == if locked then old(log)[key := []] else old(log)
      ensures entries == if locked then old(entries) - {key} else old(entries)
    {
      FaithfulLater(rates, entries, log, clock, now);
      clock := now;
      if locked {
        FaithfulClear(rates, entries, log, now, key);
        entries := entries - {key};
        log := log[key := []];
      }
    }
  }

  /** The list comprehension in `rollback`. */
  method Filtered(history: seq<real>, ts: real) returns (rest: seq<real>)
    ensures rest == Without(history, ts)
  {
    rest := [];
    for i := 0 to |history|
      invariant rest + Without(history[i..], ts) == Without(history, ts)
    {
      assert history[i..][1..] == history[i + 1..];
      if history[i] != ts {
        rest := rest + [history[i]];
      }
    }
  }
}
