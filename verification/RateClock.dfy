/** What a rollback takes back, depending on the clock that the workers read. */
module RateClock {
  import opened RateHistory
  import opened RateLimiter
  import opened RateWorkers

  // ---------- How many hits a rollback erases ----------

  ghost predicate WritesRollback(rates: Rates, s: State, w: nat) {
    Enabled(rates, s, Write(w)) && PcOf(s, w).job.Rollback?
  }

  /** A rollback erases every hit of its key with its stamp: exactly one if and only if the stamp
      occurs once. Other keys are untouched. */
  lemma RollbackErasesIff(rates: Rates, s: State, w: nat)
    requires WritesRollback(rates, s, w)
    ensures var t, key, stamp := Next(rates, s, Write(w)), PcOf(s, w).job.key, PcOf(s, w).job.stamp;
      && key in t.log && |t.log[key]| == |s.log[key]| - multiset(s.log[key])[stamp]
      && (|t.log[key]| == |s.log[key]| - 1 <==> multiset(s.log[key])[stamp] == 1)
      && forall k :: k in s.log && k != key ==> k in t.log && t.log[k] == s.log[k]
  {
    RollbackExactIff(s.log[PcOf(s, w).job.key], PcOf(s, w).job.stamp);
  }

  // ---------- Hits that nobody gives back ----------

  ghost predicate RollsBack(s: State, a: Action, key: string, x: real) {
    a.Write? && PcOf(s, a.w).HasRead? && PcOf(s, a.w).job == Rollback(key, x)
  }

  ghost predicate Clears(s: State, a: Action, key: string) {
    a.Write? && PcOf(s, a.w).Holding? && PcOf(s, a.w).job == Clear(key)
  }

  ghost predicate GrantsHit(rates: Rates, s: State, a: Action, key: string) {
    a.Write? && PcOf(s, a.w).HasClock? && PcOf(s, a.w).job == Consume(key, false) && key in rates
      && Allowed(rates, PcOf(s, a.w))
  }

  /** What one step makes of a key's log. */
  lemma HitsAfter(rates: Rates, s: State, a: Action, key: string)
    requires Enabled(rates, s, a) && key in s.log
    ensures var t := Next(rates, s, a);
      && key in t.log
      && (GrantsHit(rates, s, a, key) ==> t.log[key] == [PcOf(s, a.w).stamp] + s.log[key])
      && (forall x :: RollsBack(s, a, key, x) ==> t.log[key] == Without(s.log[key], x))
      && (Clears(s, a, key) ==> t.log[key] == [])
      && (!GrantsHit(rates, s, a, key) && (forall x :: !RollsBack(s, a, key, x)) && !Clears(s, a, key) ==>
           t.log[key] == s.log[key])
  {
    hide Pruned, Without, Stored, Read;
    if a.Write? && PcOf(s, a.w).job.Rollback? {
      assert RollsBack(s, a, PcOf(s, a.w).job.key, PcOf(s, a.w).job.stamp);
    }
  }

  /** A hit leaves its key's log exactly when a rollback of that very stamp, or a clear, is written. */
  lemma HitLeavesIff(rates: Rates, s: State, a: Action, key: string, x: real)
    requires Enabled(rates, s, a) && key in s.log && x in s.log[key]
    ensures key in Next(rates, s, a).log
    ensures x !in Next(rates, s, a).log[key] <==> RollsBack(s, a, key, x) || Clears(s, a, key)
  {
    hide Next, Enabled, Without, Allowed;
    HitsAfter(rates, s, a, key);
    if a.Write? && PcOf(s, a.w).HasRead? && PcOf(s, a.w).job.Rollback? && PcOf(s, a.w).job.key == key {
      assert RollsBack(s, a, key, PcOf(s, a.w).job.stamp);
      WithoutFacts(s.log[key], PcOf(s, a.w).job.stamp);
    }
  }

  /** Some step of the run gives the stamp back. */
  ghost predicate GivenBack(trace: seq<State>, acts: seq<Action>, key: string, x: real)
    requires |trace| == |acts| + 1
  {
    exists i :: 0 <= i < |acts| && RollsBack(trace[i], acts[i], key, x)
  }

  /** The hits granted on a key since it was last cleared, newest first, whose stamps are never given
      back: the failed attempts, whatever overlaps them. */
  ghost function NotGivenBack(rates: Rates, trace: seq<State>, acts: seq<Action>, key: string, n: nat): seq<real>
    requires |trace| == |acts| + 1 && n <= |acts|
  {
    if n == 0 then []
    else
      var before, s, a := NotGivenBack(rates, trace, acts, key, n - 1), trace[n - 1], acts[n - 1];
      if Clears(s, a, key) then []
      else if GrantsHit(rates, s, a, key) && !GivenBack(trace, acts, key, PcOf(s, a.w).stamp)
      then [PcOf(s, a.w).stamp] + before
      else before
  }

  lemma {:induction false} NotGivenBackKnown(rates: Rates, trace: seq<State>, acts: seq<Action>, key: string, n: nat,
                                             x: real)
    requires |trace| == |acts| + 1 && n <= |acts| && x in NotGivenBack(rates, trace, acts, key, n)
    ensures !GivenBack(trace, acts, key, x)
  {
    hide GivenBack, GrantsHit, Clears;
    if x in NotGivenBack(rates, trace, acts, key, n - 1) {
      NotGivenBackKnown(rates, trace, acts, key, n - 1, x);
    }
  }

  /** Request `i` grants `key` a hit stamped `x`. */
  ghost predicate GrantsAt(rates: Rates, trace: seq<State>, acts: seq<Action>, key: string, i: nat, x: real)
    requires |trace| == |acts| + 1 && i < |acts|
  {
    GrantsHit(rates, trace[i], acts[i], key) && PcOf(trace[i], acts[i].w).stamp == x
  }

  /** Exactly these stamps are in the list: granted, not cleared since, and never given back. */
  lemma {:induction false} NotGivenBackIff(rates: Rates, trace: seq<State>, acts: seq<Action>, key: string, n: nat,
                                           x: real)
    requires |trace| == |acts| + 1 && n <= |acts|
    ensures x in NotGivenBack(rates, trace, acts, key, n) <==>
      && !GivenBack(trace, acts, key, x)
      && exists i {:trigger GrantsAt(rates, trace, acts, key, i, x)} ::
           && 0 <= i < n && GrantsAt(rates, trace, acts, key, i, x)
           && forall j {:trigger Clears(trace[j], acts[j], key)} :: i < j < n ==> !Clears(trace[j], acts[j], key)
  {
    hide GivenBack;
    if n > 0 {
      var m := n - 1;
      NotGivenBackIff(rates, trace, acts, key, m, x);
      var before, s, a := NotGivenBack(rates, trace, acts, key, m), trace[m], acts[m];
      hide GrantsHit, Clears;
      if Clears(s, a, key) {
        ClearsGrantsNothing(rates, s, a, key);
      } else if GrantsAt(rates, trace, acts, key, m, x) && !GivenBack(trace, acts, key, x) {
        assert NotGivenBack(rates, trace, acts, key, n) == [x] + before;
      }
    }
  }

  lemma ClearsGrantsNothing(rates: Rates, s: State, a: Action, key: string)
    requires Clears(s, a, key)
    ensures !GrantsHit(rates, s, a, key)
  {
  }

  lemma NotGivenBackStep(rates: Rates, trace: seq<State>, acts: seq<Action>, key: string, n: nat)
    requires |trace| == |acts| + 1 && n < |acts| && Enabled(rates, trace[n], acts[n])
    requires trace[n + 1] == Next(rates, trace[n], acts[n])
    requires key in trace[n].log && Within(NotGivenBack(rates, trace, acts, key, n), trace[n].log[key])
    ensures key in trace[n + 1].log && Within(NotGivenBack(rates, trace, acts, key, n + 1), trace[n + 1].log[key])
  {
    hide Next, Enabled, Without, Within, Allowed;
    var s, a := trace[n], acts[n];
    var kept := NotGivenBack(rates, trace, acts, key, n);
    HitsAfter(rates, s, a, key);
    WithinEmpty(trace[n + 1].log[key]);
    if GrantsHit(rates, s, a, key) {
      WithinCons(kept, s.log[key], PcOf(s, a.w).stamp);
    } else if x :| RollsBack(s, a, key, x) {
      assert RollsBack(trace[n], acts[n], key, x) && GivenBack(trace, acts, key, x);
      if x in kept {
        NotGivenBackKnown(rates, trace, acts, key, n, x);
      }
      WithinWithout(kept, s.log[key], x);
    }
  }

  lemma WithinEmpty(h: seq<real>)
    ensures Within([], h)
  {
  }

  lemma {:induction false} NotGivenBackWithin(rates: Rates, now: real, trace: seq<State>, acts: seq<Action>,
                                              key: string, n: nat)
    requires Run(rates, now, trace, acts) && n <= |acts| && key in rates
    ensures key in trace[n].log && Within(NotGivenBack(rates, trace, acts, key, n), trace[n].log[key])
  {
    hide Next, Enabled, Within, NotGivenBack;
    if n > 0 {
      NotGivenBackWithin(rates, now, trace, acts, key, n - 1);
      assert trace[n] == Next(rates, trace[n - 1], acts[n - 1]);
      NotGivenBackStep(rates, trace, acts, key, n - 1);
    } else {
      NothingGranted(rates, trace, acts, key);
    }
  }

  lemma NothingGranted(rates: Rates, trace: seq<State>, acts: seq<Action>, key: string)
    requires |trace| == |acts| + 1 && key in trace[0].log
    ensures Within(NotGivenBack(rates, trace, acts, key, 0), trace[0].log[key])
  {
  }

  /** In every interleaving the hits that are never given back stay within the amount in every window:
      overlapping failed attempts cannot hide behind a success, unless it shares their very stamp. */
  lemma NotGivenBackBounded(rates: Rates, now: real, trace: seq<State>, acts: seq<Action>, key: string, n: nat, t: real)
    requires Run(rates, now, trace, acts) && TimelyRun(trace) && n <= |acts| && key in rates
    ensures var hits := Window(NotGivenBack(rates, trace, acts, key, n), t - rates[key].duration, t);
      hits == [] || |hits| <= rates[key].amount
  {
    hide Run, Window, Within, NotGivenBack, TimelyRun;
    RunLength(rates, now, trace, acts);
    NotGivenBackWithin(rates, now, trace, acts, key, n);
    WithinWindow(NotGivenBack(rates, trace, acts, key, n), trace[n].log[key], t - rates[key].duration, t);
    HitsPerWindow(rates, now, trace, acts, n, key, t);
  }

  lemma RunLength(rates: Rates, now: real, trace: seq<State>, acts: seq<Action>)
    requires Run(rates, now, trace, acts)
    ensures |trace| == |acts| + 1
  {
  }

  // ---------- A strictly increasing clock ----------

  ghost predicate Strict(h: seq<real>) {
    forall i, j :: 0 <= i < j < |h| ==> h[i] > h[j]
  }

  ghost predicate AllUnder(h: seq<real>, t: real) {
    forall i :: 0 <= i < |h| ==> h[i] < t
  }

  ghost predicate Early(s: State, pc: Pc) {
    pc.HasClock? && pc.job.key in s.log ==> AllUnder(s.log[pc.job.key], pc.stamp)
  }

  ghost predicate Unrepeated(s: State) {
    && (forall key {:trigger Strict(s.log[key])} :: key in s.log ==> Strict(s.log[key]))
    && (forall w {:trigger Early(s, s.workers[w])} :: w in s.workers ==> Early(s, s.workers[w]))
  }

  /** Every critical section of a key reads a later clock than the one before. */
  ghost predicate StrictClock(s: State, a: Action) {
    a.ReadClock? && PcOf(s, a.w).HasRead? ==>
      var key := PcOf(s, a.w).job.key;
      key in s.last ==> s.last[key] < s.now
  }

  ghost predicate StrictRun(trace: seq<State>, acts: seq<Action>) {
    |trace| == |acts| + 1 && forall i :: 0 <= i < |acts| ==> StrictClock(trace[i], acts[i])
  }

  lemma StrictWithout(h: seq<real>, ts: real, t: real)
    requires Strict(h)
    ensures Strict(Without(h, ts)) && (AllUnder(h, t) ==> AllUnder(Without(h, ts), t))
  {
    var w := Without(h, ts);
    if i :| 0 <= i < |h| && h[i] == ts {
      StrictWithoutAt(h, i);
      assert forall k :: 0 <= k < |w| ==> w[k] == h[if k < i then k else k + 1];
    } else {
      WithoutFacts(h, ts);
    }
  }

  lemma {:induction false} StrictWithoutAt(h: seq<real>, i: nat)
    requires Strict(h) && i < |h|
    ensures Without(h, h[i]) == h[..i] + h[i + 1..]
  {
    if i == 0 {
      assert forall j :: 0 <= j < |h[1..]| ==> h[1..][j] == h[j + 1];
      WithoutFacts(h[1..], h[0]);
    } else {
      assert forall j :: 0 <= j < |h[1..]| ==> h[1..][j] == h[j + 1];
      StrictWithoutAt(h[1..], i - 1);
      assert [h[0]] + h[1..][..i - 1] == h[..i] && h[1..][i..] == h[i + 1..];
    }
  }

  /** A step that leaves the logs alone, and whose worker does not read the clock. */
  lemma QuietKeeps(s: State, t: State, w: nat, pc: Pc)
    requires Unrepeated(s) && t.log == s.log && t.workers == s.workers[w := pc] && Early(t, pc)
    ensures Unrepeated(t)
  {
    forall key | key in t.log
      ensures Strict(t.log[key])
    {
      assert Strict(s.log[key]);
    }
    forall v | v in t.workers
      ensures Early(t, t.workers[v])
    {
      if v != w {
        assert Early(s, s.workers[v]);
      }
    }
  }

  /** A write by a worker that is alone inside its key. */
  lemma LoudKeeps(rates: Rates, s: State, w: nat, pc: Pc, key: string, hits: seq<real>, t: State)
    requires Safe(rates, s) && Unrepeated(s) && key in s.log && Strict(hits)
    requires t.log == s.log[key := hits] && t.workers == s.workers[w := pc] && !pc.HasClock?
    requires w in s.workers && Inside(s.workers[w]) && s.workers[w].job.key == key
    ensures Unrepeated(t)
  {
    hide KeyFaithful, Informed, Strict, AllUnder;
    AloneInside(rates, s, w, key);
    forall k | k in t.log
      ensures Strict(t.log[k])
    {
      assert k != key ==> Strict(s.log[k]);
    }
    forall v | v in t.workers
      ensures Early(t, t.workers[v])
    {
      if v != w {
        assert Early(s, s.workers[v]);
      }
    }
  }

  lemma UnrepeatedStep(rates: Rates, s: State, a: Action)
    requires Safe(rates, s) && Unrepeated(s) && Enabled(rates, s, a) && StrictClock(s, a)
    ensures Unrepeated(Next(rates, s, a))
  {
    hide KeyFaithful, Informed, Without, Pruned, Allowed, Stored, Read;
    var t := Next(rates, s, a);
    match a
    case Tick(to) =>
      assert forall key :: key in t.log ==> Strict(s.log[key]);
      assert forall v :: v in t.workers ==> Early(s, s.workers[v]);
    case Start(w, job) => QuietKeeps(s, t, w, t.workers[w]);
    case Acquire(w) => QuietKeeps(s, t, w, t.workers[w]);
    case GiveUp(w) => QuietKeeps(s, t, w, t.workers[w]);
    case ReadHistory(w) => QuietKeeps(s, t, w, t.workers[w]);
    case ReadClock(w) =>
      ClockIsLater(rates, s, w);
      QuietKeeps(s, t, w, t.workers[w]);
    case Unlock(w) => QuietKeeps(s, t, w, t.workers[w]);
    case Write(w) =>
      var pc := s.workers[w];
      var hits := s.log[pc.job.key];
      assert Strict(hits) && Early(s, pc);
      if pc.job.Rollback? {
        StrictWithout(hits, pc.job.stamp, 0.0);
      }
      if t.log == s.log {
        QuietKeeps(s, t, w, t.workers[w]);
      } else {
        LoudKeeps(rates, s, w, t.workers[w], pc.job.key, t.log[pc.job.key], t);
      }
  }

  lemma ClockIsLater(rates: Rates, s: State, w: nat)
    requires Safe(rates, s) && Enabled(rates, s, ReadClock(w)) && StrictClock(s, ReadClock(w))
    ensures var t := Next(rates, s, ReadClock(w)); Early(t, t.workers[w])
  {
    hide Represents, Informed;
    var key := s.workers[w].job.key;
    assert WorkerOk(rates, s, s.workers[w]);
    assert KeyFaithful(rates[key], EntryOf(s.store, key), s.log[key], s.last[key], s.now);
  }

  lemma {:induction false} RunUnrepeated(rates: Rates, now: real, trace: seq<State>, acts: seq<Action>, n: nat)
    requires Run(rates, now, trace, acts) && TimelyRun(trace) && StrictRun(trace, acts) && n < |trace|
    ensures Unrepeated(trace[n])
  {
    hide Safe, Next, Enabled, Unrepeated;
    if n > 0 {
      RunUnrepeated(rates, now, trace, acts, n - 1);
      RunSafe(rates, now, trace, acts, n - 1);
      UnrepeatedStep(rates, trace[n - 1], acts[n - 1]);
    } else {
      InitialUnrepeated(rates, now);
    }
  }

  lemma InitialUnrepeated(rates: Rates, now: real)
    ensures Unrepeated(Initial(rates, now))
  {
  }

  lemma {:induction false} StrictOnce(h: seq<real>, x: real)
    requires Strict(h)
    ensures multiset(h)[x] <= 1
  {
    if h != [] {
      assert h == [h[0]] + h[1..];
      StrictOnce(h[1..], x);
      assert forall k :: 0 <= k < |h[1..]| ==> h[1..][k] == h[k + 1];
      assert h[0] !in h[1..];
    }
  }

  /** With a strictly increasing clock a rollback never takes back more than one hit, in any
      interleaving. */
  lemma RollbackTakesAtMostOne(rates: Rates, now: real, trace: seq<State>, acts: seq<Action>, n: nat, w: nat)
    requires Run(rates, now, trace, acts) && TimelyRun(trace) && StrictRun(trace, acts) && n < |acts|
    requires acts[n] == Write(w) && WritesRollback(rates, trace[n], w)
    ensures var key := PcOf(trace[n], w).job.key;
      key in trace[n].log && key in trace[n + 1].log && |trace[n + 1].log[key]| >= |trace[n].log[key]| - 1
  {
    hide Safe, Next;
    RunUnrepeated(rates, now, trace, acts, n);
    RollbackErasesIff(rates, trace[n], w);
    var key := PcOf(trace[n], w).job.key;
    assert Strict(trace[n].log[key]);
    StrictOnce(trace[n].log[key], PcOf(trace[n], w).job.stamp);
  }

  // ---------- Two hits in one tick ----------

  /** Doing the actions one after the other, with every holder on time. */
  ghost predicate Path(rates: Rates, s: State, acts: seq<Action>, t: State)
    decreases |acts|
  {
    Timely(s) &&
    if acts == [] then s == t
    else Enabled(rates, s, acts[0]) && Path(rates, Next(rates, s, acts[0]), acts[1..], t)
  }

  lemma {:induction false} PathConcat(rates: Rates, s: State, acts: seq<Action>, t: State, more: seq<Action>, u: State)
    requires Path(rates, s, acts, t) && Path(rates, t, more, u)
    ensures Path(rates, s, acts + more, u)
    decreases |acts|
  {
    hide Next, Enabled;
    if acts == [] {
      assert acts + more == more;
    } else {
      PathConcat(rates, Next(rates, s, acts[0]), acts[1..], t, more, u);
      assert (acts + more)[0] == acts[0] && (acts + more)[1..] == acts[1..] + more;
    }
  }

  /** A path from the start is a run. */
  lemma {:induction false} PathIsRun(rates: Rates, now: real, before: seq<State>, done: seq<Action>, s: State,
                                     acts: seq<Action>, t: State)
    returns (trace: seq<State>)
    requires Run(rates, now, before, done) && TimelyRun(before) && before[|done|] == s && Path(rates, s, acts, t)
    ensures Run(rates, now, trace, done + acts) && TimelyRun(trace) && trace[|done + acts|] == t
    decreases |acts|
  {
    hide Next, Enabled, Timely;
    if acts == [] {
      trace := before;
      assert done + acts == done;
    } else {
      var next := Next(rates, s, acts[0]);
      PathTimely(rates, next, acts[1..], t);
      var longer := before + [next];
      var more := done + [acts[0]];
      assert Run(rates, now, longer, more) by {
        forall i | 0 <= i < |more|
          ensures Enabled(rates, longer[i], more[i]) && longer[i + 1] == Next(rates, longer[i], more[i])
        {
          assert i < |done| ==> longer[i] == before[i] && longer[i + 1] == before[i + 1] && more[i] == done[i];
        }
      }
      trace := PathIsRun(rates, now, longer, more, next, acts[1..], t);
      assert more + acts[1..] == done + acts;
    }
  }

  lemma PathTimely(rates: Rates, s: State, acts: seq<Action>, t: State)
    requires Path(rates, s, acts, t)
    ensures Timely(s)
  {
  }

  lemma ThreeSteps(rates: Rates, s: State, s1: State, s2: State, s3: State, a: seq<Action>)
    requires |a| == 3 && Timely(s) && Timely(s1) && Timely(s2) && Timely(s3)
    requires Enabled(rates, s, a[0]) && s1 == Next(rates, s, a[0]) && Enabled(rates, s1, a[1])
    requires s2 == Next(rates, s1, a[1])
    requires Enabled(rates, s2, a[2]) && s3 == Next(rates, s2, a[2])
    ensures Path(rates, s, a, s3)
  {
    hide Timely, Next, Enabled;
    assert Path(rates, s3, a[3..], s3);
    assert Path(rates, s2, a[2..], s3) by { assert a[2..][1..] == a[3..]; }
    assert Path(rates, s1, a[1..], s3) by { assert a[1..][1..] == a[2..]; }
  }

  /** Nobody is inside the key, and `w` is idle. */
  ghost predicate Quiet(s: State, w: nat, key: string) {
    PcOf(s, w).Idle? && key in s.log && key !in s.locks && Timely(s)
  }

  function EnterActions(w: nat, job: Job): seq<Action> {
    [Start(w, job), Acquire(w), ReadHistory(w)]
  }

  function Entered(s: State, w: nat, job: Job): State {
    s.(locks := s.locks[job.key := s.now + CACHE_LOCK_TIMEOUT],
       workers := s.workers[w := HasRead(job, s.now, Read(EntryOf(s.store, job.key), s.now))])
  }

  lemma EnterPath(rates: Rates, s: State, w: nat, job: Job)
    requires job.key in rates && !job.Clear? && Quiet(s, w, job.key)
    ensures Path(rates, s, EnterActions(w, job), Entered(s, w, job))
  {
    hide Read;
    var s1 := Next(rates, s, Start(w, job));
    var s2 := Next(rates, s1, Acquire(w));
    var s3 := Next(rates, s2, ReadHistory(w));
    assert s3.workers == Entered(s, w, job).workers && s3.locks == Entered(s, w, job).locks;
    assert Timely(s1) && Timely(s2) && Timely(s3);
    ThreeSteps(rates, s, s1, s2, s3, EnterActions(w, job));
  }

  function LeaveActions(w: nat): seq<Action> {
    [ReadClock(w), Write(w), Unlock(w)]
  }

  function HitEntry(rates: Rates, s: State, key: string): Entry
    requires key in rates
  {
    Entry([s.now] + Read(EntryOf(s.store, key), s.now), s.now + rates[key].duration)
  }

  /** The state after an allowed hit was written. */
  function Hitting(rates: Rates, s: State, w: nat, key: string): State
    requires key in rates && key in s.log
  {
    s.(locks := s.locks[key := s.now + CACHE_LOCK_TIMEOUT],
       store := s.store[key := HitEntry(rates, s, key)],
       workers := s.workers[w := Leaving(Consume(key, false), s.now, true)],
       last := s.last[key := s.now],
       log := s.log[key := [s.now] + s.log[key]])
  }

  lemma HittingSteps(rates: Rates, s: State, w: nat, key: string)
    requires key in rates && Quiet(s, w, key)
    requires var h := Read(EntryOf(s.store, key), s.now);
      |h| < rates[key].amount && Pruned(h, s.now - rates[key].duration) == h
    ensures var s0 := Entered(s, w, Consume(key, false));
      && Enabled(rates, s0, ReadClock(w)) && Enabled(rates, Next(rates, s0, ReadClock(w)), Write(w))
      && Next(rates, Next(rates, s0, ReadClock(w)), Write(w)) == Hitting(rates, s, w, key)
  {
    hide Pruned, Read;
    var s0 := Entered(s, w, Consume(key, false));
    var s1 := Next(rates, s0, ReadClock(w));
    var pc := HasClock(Consume(key, false), s.now, Read(EntryOf(s.store, key), s.now), s.now);
    assert PcOf(s1, w) == pc && Allowed(rates, pc);
    var s2 := Next(rates, s1, Write(w));
    assert s2.workers == Hitting(rates, s, w, key).workers;
    assert s2.store == Hitting(rates, s, w, key).store && s2.log == Hitting(rates, s, w, key).log;
  }

  /** An allowed hit, all in one tick. */
  lemma LeavePath(rates: Rates, s: State, w: nat, key: string) returns (t: State)
    requires key in rates && Quiet(s, w, key)
    requires var h := Read(EntryOf(s.store, key), s.now);
      |h| < rates[key].amount && Pruned(h, s.now - rates[key].duration) == h
    ensures Path(rates, Entered(s, w, Consume(key, false)), LeaveActions(w), t)
    ensures t.now == s.now && t.log == s.log[key := [s.now] + s.log[key]] && Quiet(t, w, key)
    ensures t.store == s.store[key := HitEntry(rates, s, key)]
    ensures forall v :: v != w ==> PcOf(t, v) == PcOf(s, v)
  {
    hide Pruned, Read, Written, HitEntry;
    HittingSteps(rates, s, w, key);
    var s0, s2 := Entered(s, w, Consume(key, false)), Hitting(rates, s, w, key);
    var s1 := Next(rates, s0, ReadClock(w));
    t := Next(rates, s2, Unlock(w));
    assert Timely(s0) && Timely(s1) && Timely(s2) && Timely(t);
    ThreeSteps(rates, s0, s1, s2, t, LeaveActions(w));
  }

  function HitActions(w: nat, key: string): seq<Action> {
    EnterActions(w, Consume(key, false)) + LeaveActions(w)
  }

  /** Worker `w` consumes from start to end within one tick. */
  lemma HitPath(rates: Rates, s: State, w: nat, key: string) returns (t: State)
    requires key in rates && Quiet(s, w, key)
    requires var h := Read(EntryOf(s.store, key), s.now);
      |h| < rates[key].amount && Pruned(h, s.now - rates[key].duration) == h
    ensures Path(rates, s, HitActions(w, key), t)
    ensures t.now == s.now && t.log == s.log[key := [s.now] + s.log[key]] && Quiet(t, w, key)
    ensures t.store == s.store[key := HitEntry(rates, s, key)]
    ensures forall v :: v != w ==> PcOf(t, v) == PcOf(s, v)
  {
    hide Path, Enabled, Next, Read, Pruned, Entered, Quiet, EnterActions, LeaveActions;
    EnterPath(rates, s, w, Consume(key, false));
    t := LeavePath(rates, s, w, key);
    PathConcat(rates, s, EnterActions(w, Consume(key, false)), Entered(s, w, Consume(key, false)), LeaveActions(w), t);
  }

  /** A reachable state in which one rollback erases two hits: two workers were let in during the
      same tick, and one of the two is given back. */
  lemma SharedTickErasesBoth(key: string, now: real)
    ensures var rates: Rates := map[key := Rate(2, 60.0)];
      exists trace: seq<State>, acts: seq<Action>, w: nat ::
        && Run(rates, now, trace, acts) && TimelyRun(trace) && WritesRollback(rates, trace[|acts|], w)
        && trace[|acts|].log[key] == [now] + [now] && Next(rates, trace[|acts|], Write(w)).log[key] == []
  {
    hide Path, Next, Timely, Run, HitActions, EnterActions, Quiet;
    var rates: Rates := map[key := Rate(2, 60.0)];
    var s := Initial(rates, now);
    var one, two := TwoHits(rates, key, now);
    var job := Rollback(key, now);
    EnterPath(rates, two, 2, job);
    var acts, entered := HitActions(0, key) + HitActions(1, key), Entered(two, 2, job);
    PathConcat(rates, s, HitActions(0, key), one, HitActions(1, key), two);
    PathConcat(rates, s, acts, two, EnterActions(2, job), entered);
    TwoGone(rates, two, key, now);
    FromInitial(rates, now, acts + EnterActions(2, job), entered);
  }

  lemma FromInitial(rates: Rates, now: real, acts: seq<Action>, t: State)
    requires Path(rates, Initial(rates, now), acts, t)
    ensures exists trace: seq<State> :: Run(rates, now, trace, acts) && TimelyRun(trace) && trace[|acts|] == t
  {
    var s := Initial(rates, now);
    assert Run(rates, now, [s], []) && TimelyRun([s]);
    var trace := PathIsRun(rates, now, [s], [], s, acts, t);
    assert [] + acts == acts;
  }

  lemma TwoHits(rates: Rates, key: string, now: real) returns (one: State, two: State)
    requires rates == map[key := Rate(2, 60.0)]
    ensures Path(rates, Initial(rates, now), HitActions(0, key), one) && Path(rates, one, HitActions(1, key), two)
    ensures two.now == now && key in two.log && two.log[key] == [now] + [now] && Quiet(two, 2, key)
  {
    hide Path;
    var s := Initial(rates, now);
    assert [now] + [] == [now] && Pruned([], now - 60.0) == [] && Pruned([now], now - 60.0) == [now];
    one := HitPath(rates, s, 0, key);
    two := HitPath(rates, one, 1, key);
  }

  lemma TwoGone(rates: Rates, two: State, key: string, now: real)
    requires key in rates && key in two.log && two.log[key] == [now] + [now] && Quiet(two, 2, key)
    ensures var s := Entered(two, 2, Rollback(key, now));
      WritesRollback(rates, s, 2) && s.log == two.log && Next(rates, s, Write(2)).log[key] == []
  {
    assert ([now] + [now])[1..] == [now] && [now][1..] == [] && Without([now], now) == [];
  }
}
