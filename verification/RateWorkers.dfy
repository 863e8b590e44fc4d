/** Any number of workers stepping through `cache_lock`, read, clock, write and unlock over one
    shared TTL cache, in any interleaving. `log` is the history that never forgets. */
module RateWorkers {
  import opened Options
  import opened RateHistory
  import opened RateLimiter

  const CACHE_LOCK_TIMEOUT := 10.0

  datatype Job = Consume(key: string, dryRun: bool) | Rollback(key: string, stamp: real) | Clear(key: string)

  /** Where a worker is. `since` is when it acquired the lock. */
  datatype Pc =
    | Idle
    | Trying(job: Job)
    | Holding(job: Job, since: real)
    | HasRead(job: Job, since: real, history: seq<real>)
    | HasClock(job: Job, since: real, history: seq<real>, stamp: real)
    | Leaving(job: Job, since: real, granted: bool)

  datatype State = State(
    now: real,
    locks: map<string, real>,       // lock key to the instant at which the backend drops it
    store: map<string, Entry>,
    workers: map<nat, Pc>,
    last: map<string, real>,        // latest clock reading of each key
    log: Log)

  datatype Action =
    | Tick(to: real)
    | Start(w: nat, job: Job)
    | Acquire(w: nat)
    | GiveUp(w: nat)
    | ReadHistory(w: nat)
    | ReadClock(w: nat)
    | Write(w: nat)
    | Unlock(w: nat)

  ghost predicate Inside(pc: Pc) {
    !pc.Idle? && !pc.Trying?
  }

  function PcOf(s: State, w: nat): Pc {
    if w in s.workers then s.workers[w] else Idle
  }

  ghost predicate Enabled(rates: Rates, s: State, a: Action) {
    match a
    case Tick(to) => s.now < to
    case Start(w, job) => PcOf(s, w).Idle? && job.key in rates
    case Acquire(w) => PcOf(s, w).Trying? && LockFree(s, PcOf(s, w).job.key)
    case GiveUp(w) => PcOf(s, w).Trying?
    case ReadHistory(w) => PcOf(s, w).Holding? && !PcOf(s, w).job.Clear?
    case ReadClock(w) => PcOf(s, w).HasRead? && PcOf(s, w).job.Consume?
    case Write(w) =>
      var pc := PcOf(s, w);
      && ((pc.HasClock? && pc.job.Consume?) || (pc.HasRead? && pc.job.Rollback?) || (pc.Holding? && pc.job.Clear?))
      && pc.job.key in rates && pc.job.key in s.log
    case Unlock(w) => PcOf(s, w).Leaving?
  }

  /** `cache.add` succeeds when the lock key is absent or has expired. */
  ghost predicate LockFree(s: State, key: string) {
    key in s.locks ==> s.locks[key] <= s.now
  }

  function At(s: State, w: nat, pc: Pc): State {
    s.(workers := s.workers[w := pc])
  }

  /** The verdict of `apply_rate` on what the worker read. */
  function Allowed(rates: Rates, pc: Pc): bool
    requires pc.HasClock? && pc.job.key in rates
  {
    |Pruned(pc.history, pc.stamp - rates[pc.job.key].duration)| < rates[pc.job.key].amount
  }

  ghost function Next(rates: Rates, s: State, a: Action): State
    requires Enabled(rates, s, a)
  {
    match a
    case Tick(to) => s.(now := to)
    case Start(w, job) => At(s, w, Trying(job))
    case Acquire(w) =>
      var job := PcOf(s, w).job;
      At(s, w, Holding(job, s.now)).(locks := s.locks[job.key := s.now + CACHE_LOCK_TIMEOUT])
    case GiveUp(w) => At(s, w, Idle)
    case ReadHistory(w) =>
      var pc := PcOf(s, w);
      At(s, w, HasRead(pc.job, pc.since, Read(EntryOf(s.store, pc.job.key), s.now)))
    case ReadClock(w) =>
      var pc := PcOf(s, w);
      At(s, w, HasClock(pc.job, pc.since, pc.history, s.now)).(last := s.last[pc.job.key := s.now])
    case Write(w) => Written(rates, s, w)
    case Unlock(w) => At(s, w, Idle).(locks := s.locks - {PcOf(s, w).job.key})
  }

  ghost function Written(rates: Rates, s: State, w: nat): State
    requires Enabled(rates, s, Write(w))
  {
    var pc := PcOf(s, w);
    var job, key := pc.job, pc.job.key;
    var d := rates[key].duration;
    match job
    case Consume(_, dryRun) =>
      var granted := Allowed(rates, pc);
      var t := At(s, w, Leaving(job, pc.since, granted));
      if granted && !dryRun
      then t.(store := s.store[key := Stored([pc.stamp] + Pruned(pc.history, pc.stamp - d), d, s.now).value],
              log := s.log[key := [pc.stamp] + s.log[key]])
      else t
    case Rollback(_, stamp) =>
      At(s, w, Leaving(job, pc.since, true)).(
        store := s.store[key := Stored(Without(pc.history, stamp), d, s.now).value],
        log := s.log[key := Without(s.log[key], stamp)])
    case Clear(_) =>
      At(s, w, Leaving(job, pc.since, true)).(store := s.store - {key}, log := s.log[key := []])
  }

  // ---------- The invariant ----------

  /** A lock holder finishes before its lock expires: the deployment's side of the bargain. */
  ghost predicate Timely(s: State) {
    forall w :: w in s.workers && Inside(s.workers[w]) ==> s.now < s.workers[w].since + CACHE_LOCK_TIMEOUT
  }

  ghost predicate KeyFaithful(rate: Rate, e: Option<Entry>, hits: seq<real>, last: real, now: real) {
    && Represents(e, hits, rate, now)
    && Bounded(e, hits, last) && last <= now
    && Spaced(hits, rate.amount, rate.duration)
  }

  /** What a worker knows about the log of its key. */
  ghost predicate Informed(rate: Rate, pc: Pc, hits: seq<real>, last: real, now: real) {
    match pc
    case HasRead(_, _, h) => Descending(h) && AllBelow(h, last) && Agree(h, hits, rate.duration, now)
    case HasClock(_, _, h, stamp) =>
      Descending(h) && AllBelow(h, stamp) && AllBelow(hits, stamp) && Agree(h, hits, rate.duration, stamp)
      && stamp == last
    case _ => true
  }

  ghost predicate WorkerOk(rates: Rates, s: State, pc: Pc) {
    && (!pc.Idle? ==> pc.job.key in rates && pc.job.key in s.log && pc.job.key in s.last)
    && (Inside(pc) ==> pc.job.key in s.locks && s.locks[pc.job.key] == pc.since + CACHE_LOCK_TIMEOUT)
    && (pc.HasClock? ==> pc.job.Consume?)
    && (Inside(pc) ==> Informed(rates[pc.job.key], pc, s.log[pc.job.key], s.last[pc.job.key], s.now))
  }

  ghost predicate Exclusive(s: State) {
    forall w, v | w in s.workers && v in s.workers && Inside(s.workers[w]) && Inside(s.workers[v])
      :: s.workers[w].job.key == s.workers[v].job.key ==> w == v
  }

  ghost predicate Safe(rates: Rates, s: State) {
    && s.log.Keys == rates.Keys == s.last.Keys
    && Timely(s) && Exclusive(s)
    && (forall key {:trigger KeyFaithful(rates[key], EntryOf(s.store, key), s.log[key], s.last[key], s.now)} ::
          key in rates ==> KeyFaithful(rates[key], EntryOf(s.store, key), s.log[key], s.last[key], s.now))
    && (forall w {:trigger WorkerOk(rates, s, s.workers[w])} :: w in s.workers ==> WorkerOk(rates, s, s.workers[w]))
  }

  ghost function Initial(rates: Rates, now: real): State {
    State(now, map[], map[], map[], map key | key in rates :: now, map key | key in rates :: [])
  }

  lemma InitialSafe(rates: Rates, now: real)
    ensures Safe(rates, Initial(rates, now))
  {
    var s := Initial(rates, now);
    forall key | key in rates
      ensures KeyFaithful(rates[key], EntryOf(s.store, key), s.log[key], s.last[key], s.now)
    {
      EmptyHistory(now - rates[key].duration, now);
    }
  }

  // ---------- Each step keeps it ----------

  lemma TickKeeps(rates: Rates, s: State, to: real)
    requires Safe(rates, s) && s.now < to && Timely(s.(now := to))
    ensures Safe(rates, s.(now := to))
  {
    hide KeyFaithful, WorkerOk;
    var t := s.(now := to);
    forall key | key in rates
      ensures KeyFaithful(rates[key], EntryOf(t.store, key), t.log[key], t.last[key], t.now)
    {
      assert KeyFaithful(rates[key], EntryOf(s.store, key), s.log[key], s.last[key], s.now);
      FaithfulLonger(rates[key], EntryOf(s.store, key), s.log[key], s.last[key], s.now, to);
    }
    forall w | w in t.workers
      ensures WorkerOk(rates, t, t.workers[w])
    {
      assert WorkerOk(rates, s, s.workers[w]);
      WorkerLonger(rates, s, s.workers[w], to);
    }
  }

  lemma FaithfulLonger(rate: Rate, e: Option<Entry>, hits: seq<real>, last: real, now: real, later: real)
    requires KeyFaithful(rate, e, hits, last, now) && now <= later
    ensures KeyFaithful(rate, e, hits, last, later)
  {
    RepresentsLater(e, hits, rate, now, later);
  }

  lemma WorkerLonger(rates: Rates, s: State, pc: Pc, to: real)
    requires WorkerOk(rates, s, pc) && s.now < to
    ensures WorkerOk(rates, s.(now := to), pc)
  {
    if pc.HasRead? {
      AgreeLater(pc.history, s.log[pc.job.key], rates[pc.job.key].duration, s.now, to);
    }
  }

  /** A step of worker `w` that touches at most the lock, entry, clock and log of its own key
      keeps the invariant, provided its own key and its own place are right afterwards. */
  lemma StepKeeps(rates: Rates, s: State, t: State, w: nat, key: string)
    requires Safe(rates, s) && key in rates && t.now == s.now
    requires t.log.Keys == rates.Keys == t.last.Keys
    requires w in t.workers && t.workers == s.workers[w := t.workers[w]]
    requires forall k :: k != key ==>
      && EntryOf(t.store, k) == EntryOf(s.store, k)
      && (k in s.log ==> t.log[k] == s.log[k] && t.last[k] == s.last[k])
      && (k in s.locks ==> k in t.locks && t.locks[k] == s.locks[k])
    requires KeyFaithful(rates[key], EntryOf(t.store, key), t.log[key], t.last[key], t.now)
    requires WorkerOk(rates, t, t.workers[w])
    requires Inside(t.workers[w]) ==> t.workers[w].job.key == key && s.now < t.workers[w].since + CACHE_LOCK_TIMEOUT
    requires (forall v :: v in s.workers && v != w && Inside(s.workers[v]) ==> s.workers[v].job.key != key)
             || (EntryOf(t.store, key) == EntryOf(s.store, key) && t.log == s.log && t.last == s.last
               && t.locks == s.locks
                 && !Inside(t.workers[w]))
    ensures Safe(rates, t)
  {
    hide KeyFaithful;
    forall k | k in rates
      ensures KeyFaithful(rates[k], EntryOf(t.store, k), t.log[k], t.last[k], t.now)
    {
      assert KeyFaithful(rates[k], EntryOf(s.store, k), s.log[k], s.last[k], s.now);
    }
    forall v | v in t.workers
      ensures WorkerOk(rates, t, t.workers[v])
    {
      if v != w {
        assert WorkerOk(rates, s, s.workers[v]);
      }
    }
    assert Exclusive(t);
    assert Timely(t);
  }

  /** Nobody else is inside the key that this worker holds, or that it finds unlocked. */
  lemma AloneInside(rates: Rates, s: State, w: nat, key: string)
    requires Safe(rates, s)
    requires LockFree(s, key) || (w in s.workers && Inside(s.workers[w]) && s.workers[w].job.key == key)
    ensures forall v :: v in s.workers && v != w && Inside(s.workers[v]) ==> s.workers[v].job.key != key
  {
    hide KeyFaithful, Informed;
    forall v | v in s.workers && v != w && Inside(s.workers[v])
      ensures s.workers[v].job.key != key
    {
      assert WorkerOk(rates, s, s.workers[v]);
    }
  }

  /** A worker that stays outside the lock. */
  lemma PassiveKeeps(rates: Rates, s: State, w: nat, pc: Pc, key: string)
    requires Safe(rates, s) && key in rates && (pc.Idle? || (pc.Trying? && pc.job.key == key))
    requires !Inside(PcOf(s, w))
    ensures Safe(rates, At(s, w, pc))
  {
    assert KeyFaithful(rates[key], EntryOf(s.store, key), s.log[key], s.last[key], s.now);
    StepKeeps(rates, s, At(s, w, pc), w, key);
  }

  lemma LockKeeps(rates: Rates, s: State, a: Action)
    requires Safe(rates, s) && Enabled(rates, s, a) && (a.Acquire? || a.Unlock?)
    ensures Safe(rates, Next(rates, s, a))
  {
    hide KeyFaithful;
    var w := a.w;
    var key := s.workers[w].job.key;
    assert WorkerOk(rates, s, s.workers[w]);
    AloneInside(rates, s, w, key);
    assert KeyFaithful(rates[key], EntryOf(s.store, key), s.log[key], s.last[key], s.now);
    StepKeeps(rates, s, Next(rates, s, a), w, key);
  }

  lemma ReadKeeps(rates: Rates, s: State, a: Action)
    requires Safe(rates, s) && Enabled(rates, s, a) && a.ReadHistory?
    ensures Safe(rates, Next(rates, s, a))
  {
    var w := a.w;
    var key := s.workers[w].job.key;
    assert WorkerOk(rates, s, s.workers[w]);
    AloneInside(rates, s, w, key);
    assert KeyFaithful(rates[key], EntryOf(s.store, key), s.log[key], s.last[key], s.now);
    StepKeeps(rates, s, Next(rates, s, a), w, key);
  }

  lemma ClockKeeps(rates: Rates, s: State, a: Action)
    requires Safe(rates, s) && Enabled(rates, s, a) && a.ReadClock?
    ensures Safe(rates, Next(rates, s, a))
  {
    var w := a.w;
    var pc := s.workers[w];
    var key := pc.job.key;
    assert WorkerOk(rates, s, pc);
    AloneInside(rates, s, w, key);
    var e, hits, last := EntryOf(s.store, key), s.log[key], s.last[key];
    assert KeyFaithful(rates[key], e, hits, last, s.now);
    BelowLater(pc.history, last, s.now);
    BelowLater(hits, last, s.now);
    if e.Some? {
      BelowLater(e.value.history, last, s.now);
    }
    StepKeeps(rates, s, Next(rates, s, a), w, key);
  }

  /** The three writes, seen by their own key. */
  lemma WrittenFaithful(rates: Rates, s: State, w: nat)
    requires Safe(rates, s) && Enabled(rates, s, Write(w))
    ensures var t, key := Written(rates, s, w), s.workers[w].job.key;
      key in rates && key in t.log && KeyFaithful(rates[key], EntryOf(t.store, key), t.log[key], t.last[key], t.now)
  {
    hide Represents, Recent, Pruned, Descending, AllBelow, Spaced;
    var pc := s.workers[w];
    var key := pc.job.key;
    assert WorkerOk(rates, s, pc);
    var rate, hits, last := rates[key], s.log[key], s.last[key];
    assert KeyFaithful(rate, EntryOf(s.store, key), hits, last, s.now);
    match pc.job
    case Consume(_, dryRun) =>
      FaithfulParts(rate, EntryOf(s.store, key), hits, last, s.now);
      GrantKeeps(pc.history, hits, rate, pc.stamp, s.now);
      if Allowed(rates, pc) {
        SpacedGrant(hits, pc.stamp, rate.amount, rate.duration);
      }
    case Rollback(_, stamp) =>
      FaithfulParts(rate, EntryOf(s.store, key), hits, last, s.now);
      RollbackKeeps(pc.history, hits, rate, stamp, last, s.now);
      SpacedWithout(hits, stamp, rate.amount, rate.duration);
    case Clear(_) =>
      ClearedFaithful(rate, last, s.now);
  }

  lemma FaithfulParts(rate: Rate, e: Option<Entry>, hits: seq<real>, last: real, now: real)
    requires KeyFaithful(rate, e, hits, last, now)
    ensures Descending(hits) && AllBelow(hits, last) && last <= now && Spaced(hits, rate.amount, rate.duration)
  {
  }

  lemma ClearedFaithful(rate: Rate, last: real, now: real)
    requires last <= now
    ensures KeyFaithful(rate, None, [], last, now)
  {
    EmptyHistory(now - rate.duration, last);
  }

  lemma WriteKeeps(rates: Rates, s: State, a: Action)
    requires Safe(rates, s) && Enabled(rates, s, a) && a.Write?
    ensures Safe(rates, Next(rates, s, a))
  {
    hide KeyFaithful, Stored, Without, Pruned, Allowed;
    var w := a.w;
    var key := s.workers[w].job.key;
    assert WorkerOk(rates, s, s.workers[w]);
    AloneInside(rates, s, w, key);
    WrittenFaithful(rates, s, w);
    StepKeeps(rates, s, Next(rates, s, a), w, key);
  }

  lemma NextKeeps(rates: Rates, s: State, a: Action)
    requires Safe(rates, s) && Enabled(rates, s, a) && Timely(Next(rates, s, a))
    ensures Safe(rates, Next(rates, s, a))
  {
    hide KeyFaithful, Informed;
    match a
    case Tick(to) => TickKeeps(rates, s, to);
    case Start(w, job) => PassiveKeeps(rates, s, w, Trying(job), job.key);
    case GiveUp(w) =>
      assert WorkerOk(rates, s, s.workers[w]);
      PassiveKeeps(rates, s, w, Idle, s.workers[w].job.key);
    case Acquire(w) => LockKeeps(rates, s, a);
    case ReadHistory(w) => ReadKeeps(rates, s, a);
    case ReadClock(w) => ClockKeeps(rates, s, a);
    case Write(w) => WriteKeeps(rates, s, a);
    case Unlock(w) => LockKeeps(rates, s, a);
  }

  // ---------- Every run ----------

  ghost predicate Run(rates: Rates, now: real, trace: seq<State>, acts: seq<Action>) {
    && |trace| == |acts| + 1 && trace[0] == Initial(rates, now)
    && forall i :: 0 <= i < |acts| ==>
         Enabled(rates, trace[i], acts[i]) && trace[i + 1] == Next(rates, trace[i], acts[i])
  }

  ghost predicate TimelyRun(trace: seq<State>) {
    forall i :: 0 <= i < |trace| ==> Timely(trace[i])
  }

  lemma {:induction false} RunSafe(rates: Rates, now: real, trace: seq<State>, acts: seq<Action>, n: nat)
    requires Run(rates, now, trace, acts) && TimelyRun(trace) && n < |trace|
    ensures Safe(rates, trace[n])
  {
    hide Safe, Next, Enabled;
    InitialSafe(rates, now);
    if n > 0 {
      RunSafe(rates, now, trace, acts, n - 1);
      assert trace[n] == Next(rates, trace[n - 1], acts[n - 1]);
      NextKeeps(rates, trace[n - 1], acts[n - 1]);
    }
  }

  /** At most one worker is ever between lock and unlock of a key, and its lock is good for ten seconds
      from when it was acquired. */
  lemma AtMostOneInside(rates: Rates, now: real, trace: seq<State>, acts: seq<Action>, n: nat, w: nat, v: nat)
    requires Run(rates, now, trace, acts) && TimelyRun(trace) && n < |trace|
    requires Inside(PcOf(trace[n], w)) && Inside(PcOf(trace[n], v))
    requires PcOf(trace[n], w).job.key == PcOf(trace[n], v).job.key
    ensures w == v
    ensures var s, pc := trace[n], PcOf(trace[n], w);
      pc.job.key in s.locks && s.locks[pc.job.key] == pc.since + 10.0
  {
    hide KeyFaithful, Informed, Run;
    RunSafe(rates, now, trace, acts, n);
    assert WorkerOk(rates, trace[n], trace[n].workers[w]);
  }

  /** Hits granted and not rolled back never exceed the amount, in any half-open window (t - d, t]. */
  lemma HitsPerWindow(rates: Rates, now: real, trace: seq<State>, acts: seq<Action>, n: nat, key: string, t: real)
    requires Run(rates, now, trace, acts) && TimelyRun(trace) && n < |trace| && key in rates
    ensures key in trace[n].log
    ensures var hits := Window(trace[n].log[key], t - rates[key].duration, t);
      hits == [] || |hits| <= rates[key].amount
  {
    hide Represents, Run, Window;
    RunSafe(rates, now, trace, acts, n);
    var s := trace[n];
    assert KeyFaithful(rates[key], EntryOf(s.store, key), s.log[key], s.last[key], s.now);
    FaithfulParts(rates[key], EntryOf(s.store, key), s.log[key], s.last[key], s.now);
    WindowBound(s.log[key], rates[key].amount, rates[key].duration, t);
  }

  /** The verdict reached on the TTL cache is the verdict of the log that never forgets. */
  lemma VerdictOfFullLog(rates: Rates, now: real, trace: seq<State>, acts: seq<Action>, n: nat, w: nat)
    requires Run(rates, now, trace, acts) && TimelyRun(trace) && n < |trace|
    requires PcOf(trace[n], w).HasClock?
    ensures var s, pc := trace[n], PcOf(trace[n], w);
      && pc.job.key in rates && pc.job.key in s.log
      && (Allowed(rates, pc) <==>
          |Recent(s.log[pc.job.key], pc.stamp - rates[pc.job.key].duration)| < rates[pc.job.key].amount)
  {
    hide Represents, Run, Recent, Pruned, AllBelow;
    RunSafe(rates, now, trace, acts, n);
    var s, pc := trace[n], PcOf(trace[n], w);
    assert WorkerOk(rates, s, pc);
    PrunedOfDescending(pc.history, pc.stamp - rates[pc.job.key].duration);
  }

  /** A stalled holder breaks exclusion: the lock expires under it and a second worker enters. */
  lemma StalledHolderBreaksExclusion()
    ensures exists rates: Rates, trace, acts ::
      Run(rates, 0.0, trace, acts) && !TimelyRun(trace) && !Exclusive(trace[|acts|])
  {
    hide Written, Allowed, Safe, WorkerOk, KeyFaithful;
    var rates: Rates := map["k" := Rate(1, 60.0)];
    var job := Consume("k", false);
    var acts := [Start(0, job), Start(1, job), Acquire(0), Tick(10.0), Acquire(1)];
    var s0 := Initial(rates, 0.0);
    var s1 := Next(rates, s0, acts[0]);
    var s2 := Next(rates, s1, acts[1]);
    var s3 := Next(rates, s2, acts[2]);
    var s4 := Next(rates, s3, acts[3]);
    var s5 := Next(rates, s4, acts[4]);
    var trace := [s0, s1, s2, s3, s4, s5];
    assert Run(rates, 0.0, trace, acts);
    assert s4.workers[0] == Holding(job, 0.0) && !Timely(trace[4]);
    assert s5.workers[0] == Holding(job, 0.0) && s5.workers[1] == Holding(job, 10.0);
  }
}
