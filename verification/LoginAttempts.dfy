/** The limit on failed logins: every attempt is charged up front, and a successful one is rolled
    back. Over any mix of attempts the failures stay within every configured rate. */
module LoginAttempts {
  import opened Options
  import opened RateHistory
  import opened RateLimiter

  datatype Outcome = TooManyAttempts | Authenticated | Failed

  /** One login attempt: its turns at the rates of `login_failed`, whether the credentials are
      right, and the turns of the rollback that follows a success. */
  datatype Attempt = Attempt(turns: seq<Turn>, ok: bool, again: seq<Turn>)

  ghost predicate WellFormed(rates: Rates, log: Log, a: Attempt) {
    Known(rates, log, a.turns) && Distinct(a.turns) && |a.again| == |a.turns|
  }

  ghost function UsageList(rates: Rates, turns: seq<Turn>): (u: seq<SingleUsage>)
    requires forall i :: 0 <= i < |turns| ==> turns[i].key in rates
    ensures |u| == |turns| && UsagesOf(rates, turns, u)
  {
    seq(|turns|, i requires 0 <= i < |turns| => Usage(rates, turns[i]))
  }

  /** What an attempt answers and what it leaves in the log. */
  ghost function After(rates: Rates, log: Log, a: Attempt): (r: (Log, Outcome))
    requires WellFormed(rates, log, a)
    ensures r.0.Keys == log.Keys
  {
    var n := Grants(rates, log, a.turns, false, 0);
    var charged := Charged(log, a.turns, false, n);
    if n < |a.turns| then (charged, TooManyAttempts)
    else if a.ok then (Undone(charged, UsageList(rates, a.turns), a.again, |a.turns|), Authenticated)
    else (charged, Failed)
  }

  /** A successful attempt leaves no trace if and only if its rollback gets every lock and none of its
      stamps was there before. */
  lemma SuccessLeavesNoTraceIff(rates: Rates, log: Log, a: Attempt)
    requires WellFormed(rates, log, a) && After(rates, log, a).1.Authenticated?
    ensures After(rates, log, a).0 == log <==> forall i :: 0 <= i < |a.turns| ==> Clean(log, a.turns[i], a.again[i])
  {
    hide Grants, Charged, Undone, Clean;
    RollbackUndoesConsumeIff(rates, log, a.turns, UsageList(rates, a.turns), a.again);
  }

  /** So with a strictly increasing clock one whose rollback gets its locks leaves none. */
  lemma SuccessLeavesNoTrace(rates: Rates, log: Log, a: Attempt, from: real)
    requires WellFormed(rates, log, a) && Increasing(a.turns, from) && AllLocked(a.again)
    requires forall key :: key in log ==> AllBelow(log[key], from)
    ensures After(rates, log, a).1.Authenticated? ==> After(rates, log, a).0 == log
  {
    hide Grants, Charged, Undone;
    RollbackUndoesConsume(rates, log, a.turns, UsageList(rates, a.turns), a.again, from);
  }

  class Adapter {
    var loginFailedUsage: Option<seq<SingleUsage>>

    constructor () {
      loginFailedUsage := None;
    }

    /** Charges the attempt, or refuses it. */
    method PreAuthenticate(limiter: Limiter, isGet: bool, turns: seq<Turn>) returns (allowed: bool)
      requires limiter.Valid() && Known(limiter.rates, limiter.log, turns) && NonDecreasing(turns, limiter.clock)
      modifies this, limiter
      ensures limiter.Valid() && old(limiter.clock) <= limiter.clock <= Last(turns, old(limiter.clock))
      ensures allowed <==> loginFailedUsage.Some?
      ensures isGet ==> loginFailedUsage == Some([]) && limiter.log == old(limiter.log)
      ensures !isGet ==>
        var n := Grants(limiter.rates, old(limiter.log), turns, false, 0);
        && (allowed <==> n == |turns|)
        && limiter.log == Charged(old(limiter.log), turns, false, n)
        && (allowed ==> |loginFailedUsage.value| == n && UsagesOf(limiter.rates, turns, loginFailedUsage.value))
    {
      hide Grants, Charged, Faithful;
      var v := limiter.Consume(isGet, false, turns, false, false);
      loginFailedUsage := if v.Granted? then Some(v.usage) else None;
      allowed := v.Granted?;
    }

    /** `authenticate`: a failure keeps its hits, a success gives them back. */
    method Authenticate(limiter: Limiter, isGet: bool, a: Attempt) returns (outcome: Outcome)
      requires limiter.Valid() && WellFormed(limiter.rates, limiter.log, a)
      requires NonDecreasing(a.turns, limiter.clock) && NonDecreasing(a.again, Last(a.turns, limiter.clock))
      modifies this, limiter
      ensures limiter.Valid()
      ensures !isGet ==> (limiter.log, outcome) == After(limiter.rates, old(limiter.log), a)
      ensures isGet ==> limiter.log == old(limiter.log) && outcome == if a.ok then Authenticated else Failed
      ensures !isGet && outcome.Authenticated? ==>
        (limiter.log == old(limiter.log) <==>
          forall i :: 0 <= i < |a.turns| ==> Clean(old(limiter.log), a.turns[i], a.again[i]))
      ensures AllLocked(a.again) && Increasing(a.turns, old(limiter.clock)) && outcome.Authenticated? ==>
        limiter.log == old(limiter.log)
      ensures outcome.Authenticated? && limiter.log == old(limiter.log) ==>
        forall key, t :: key in limiter.rates && limiter.clock <= t ==>
          limiter.Visible(key, t) == Recent(old(limiter.log[key]), t - limiter.rates[key].duration)
    {
      hide Grants, Charged, Faithful, Undone, Recent, Clean;
      ghost var start := limiter.log;
      limiter.LogBelow();
      if After(limiter.rates, start, a).1.Authenticated? {
        SuccessLeavesNoTraceIff(limiter.rates, start, a);
      }
      if AllLocked(a.again) && Increasing(a.turns, limiter.clock) {
        SuccessLeavesNoTrace(limiter.rates, start, a, limiter.clock);
      }
      var allowed := PreAuthenticate(limiter, isGet, a.turns);
      if !allowed {
        return TooManyAttempts;
      }
      if !a.ok {
        return Failed;
      }
      var usages := loginFailedUsage.value;
      assert !isGet ==> usages == UsageList(limiter.rates, a.turns);
      var again := a.again[..|usages|];
      assert again == if isGet then [] else a.again;
      UndoneNothing(limiter.log, []);
      limiter.Rollback(usages, again);
      outcome := Authenticated;
      forall key, t | key in limiter.rates && limiter.clock <= t
        ensures limiter.Visible(key, t) == Recent(limiter.log[key], t - limiter.rates[key].duration)
      {
        limiter.VisibleIsLog(key, t);
      }
    }
  }

  lemma UndoneNothing(log: Log, again: seq<Turn>)
    requires again == []
    ensures Undone(log, [], again, 0) == log
  {
  }

  // ---------- Runs of attempts ----------

  ghost function End(run: seq<Attempt>, from: real): real {
    if run == [] then from
    else
      var a := run[|run| - 1];
      Last(a.again, Last(a.turns, End(run[..|run| - 1], from)))
  }

  /** The clock never goes back, from one attempt to the next and within each. */
  ghost predicate Timed(run: seq<Attempt>, from: real) {
    run == [] ||
    var a, before := run[|run| - 1], End(run[..|run| - 1], from);
    Timed(run[..|run| - 1], from) && NonDecreasing(a.turns, before) && NonDecreasing(a.again, Last(a.turns, before))
  }

  ghost predicate RunOk(rates: Rates, log: Log, run: seq<Attempt>) {
    log.Keys == rates.Keys && forall i :: 0 <= i < |run| ==> WellFormed(rates, log, run[i])
  }

  /** The log after a run. */
  ghost function RunLog(rates: Rates, log: Log, run: seq<Attempt>): (r: Log)
    requires RunOk(rates, log, run)
    ensures r.Keys == log.Keys
  {
    if run == [] then log
    else After(rates, RunLog(rates, log, run[..|run| - 1]), run[|run| - 1]).0
  }

  ghost predicate HitsOk(rate: Rate, hits: seq<real>, t: real) {
    Descending(hits) && AllBelow(hits, t) && Spaced(hits, rate.amount, rate.duration)
  }

  /** A success gives back no stamp of a recorded failure of the key. */
  ghost predicate Spares(rates: Rates, log: Log, a: Attempt, key: string, failed: seq<real>)
    requires WellFormed(rates, log, a)
  {
    After(rates, log, a).1.Authenticated? ==>
      forall i :: 0 <= i < |a.turns| && a.turns[i].key == key && a.again[i].locked ==> a.turns[i].at !in failed
  }

  /** The recorded failures of a key, once the attempt was made. */
  ghost function FailuresAfter(rates: Rates, log: Log, a: Attempt, key: string, failed: seq<real>): seq<real>
    requires WellFormed(rates, log, a)
  {
    var i := Find(a.turns, key, |a.turns|);
    if After(rates, log, a).1.Failed? && i < |a.turns| then [a.turns[i].at] + failed else failed
  }

  /** When the failed attempts of a run were charged to `key`, newest first. */
  ghost function Failures(rates: Rates, log: Log, run: seq<Attempt>, key: string): seq<real>
    requires RunOk(rates, log, run)
  {
    if run == [] then []
    else
      var before := run[..|run| - 1];
      FailuresAfter(rates, RunLog(rates, log, before), run[|run| - 1], key, Failures(rates, log, before, key))
  }

  /** One attempt, seen by one key: its failure is among the hits, and the failures recorded before
      stay there if and only if they are spared. */
  lemma FailedKeptIff(rates: Rates, log: Log, a: Attempt, key: string, failed: seq<real>)
    requires WellFormed(rates, log, a) && key in log && Within(failed, log[key])
    ensures Within(FailuresAfter(rates, log, a, key, failed), After(rates, log, a).0[key]) <==>
      Spares(rates, log, a, key, failed)
  {
    hide Grants, Charged, Undone, Within, Without;
    var n := Grants(rates, log, a.turns, false, 0);
    var charged := Charged(log, a.turns, false, n);
    ChargedAt(log, a.turns, n, key);
    var i := Find(a.turns, key, |a.turns|);
    if i < n {
      WithinCons(failed, log[key], a.turns[i].at);
    }
    if n == |a.turns| && a.ok {
      var usages := UsageList(rates, a.turns);
      assert forall i :: 0 <= i < n ==> usages[i] == Usage(rates, a.turns[i]);
      UndoneAt(charged, usages, a.again, n, key);
      if i < n && a.again[i].locked {
        var stamp := a.turns[i].at;
        WithoutFacts(charged[key], stamp);
        if stamp in failed {
          if Within(failed, Without(charged[key], stamp)) {
            WithinMember(failed, Without(charged[key], stamp), stamp);
          }
        } else {
          WithinWithout(failed, charged[key], stamp);
        }
      }
    }
  }

  /** One attempt leaves the hits of a key spaced. */
  lemma AttemptKeeps(rates: Rates, log: Log, a: Attempt, key: string, t: real)
    requires WellFormed(rates, log, a) && key in log && HitsOk(rates[key], log[key], t)
    requires NonDecreasing(a.turns, t) && NonDecreasing(a.again, Last(a.turns, t))
    ensures HitsOk(rates[key], After(rates, log, a).0[key], Last(a.again, Last(a.turns, t)))
  {
    hide Grants, Charged, Undone, HitsOk, Recent, Without;
    var n := Grants(rates, log, a.turns, false, 0);
    var charged := Charged(log, a.turns, false, n);
    var i, end := Find(a.turns, key, |a.turns|), Last(a.again, Last(a.turns, t));
    GrantsExact(rates, log, a.turns, false, 0);
    ChargedAt(log, a.turns, n, key);
    if i < n {
      ChargedAt(log, a.turns, i, key);
      HitGranted(rates[key], log[key], t, a.turns[i].at, end);
    } else {
      HitsLater(rates[key], log[key], t, end);
    }
    if n == |a.turns| && a.ok {
      var usages := UsageList(rates, a.turns);
      assert forall k :: 0 <= k < n ==> usages[k] == Usage(rates, a.turns[k]);
      UndoneAt(charged, usages, a.again, n, key);
      if i < n {
        WithoutOk(rates[key], charged[key], a.turns[i].at, end);
      }
    }
  }

  lemma HitsLater(rate: Rate, hits: seq<real>, t: real, later: real)
    requires HitsOk(rate, hits, t) && t <= later
    ensures HitsOk(rate, hits, later)
  {
  }

  lemma HitGranted(rate: Rate, hits: seq<real>, t: real, now: real, later: real)
    requires HitsOk(rate, hits, t) && t <= now <= later
    requires |Recent(hits, now - rate.duration)| < rate.amount
    ensures HitsOk(rate, [now] + hits, later)
  {
    hide Recent;
    SpacedGrant(hits, now, rate.amount, rate.duration);
    BelowLater(hits, t, now);
    Prepended(hits, now);
  }

  lemma WithoutOk(rate: Rate, hits: seq<real>, ts: real, t: real)
    requires HitsOk(rate, hits, t)
    ensures HitsOk(rate, Without(hits, ts), t)
  {
    WithoutFacts(hits, ts);
    WithoutBelow(hits, ts, t);
    SpacedWithout(hits, ts, rate.amount, rate.duration);
  }

  lemma {:induction false} RunKeeps(rates: Rates, log: Log, run: seq<Attempt>, key: string, from: real)
    requires RunOk(rates, log, run) && Timed(run, from) && key in rates && HitsOk(rates[key], log[key], from)
    ensures HitsOk(rates[key], RunLog(rates, log, run)[key], End(run, from))
  {
    if run != [] {
      hide HitsOk, After;
      var before, a := run[..|run| - 1], run[|run| - 1];
      RunKeeps(rates, log, before, key, from);
      AttemptKeeps(rates, RunLog(rates, log, before), a, key, End(before, from));
    }
  }

  /** Attempt `n` of the run spares the failures before it. */
  ghost predicate UntiedAt(rates: Rates, log: Log, run: seq<Attempt>, key: string, n: nat)
    requires RunOk(rates, log, run) && n < |run|
  {
    Spares(rates, RunLog(rates, log, run[..n]), run[n], key, Failures(rates, log, run[..n], key))
  }

  ghost predicate UntiedRun(rates: Rates, log: Log, run: seq<Attempt>, key: string)
    requires RunOk(rates, log, run)
  {
    forall n {:trigger UntiedAt(rates, log, run, key, n)} :: 0 <= n < |run| ==> UntiedAt(rates, log, run, key, n)
  }

  /** After the first `n` attempts every failure so far is among the hits. */
  ghost predicate KeptAt(rates: Rates, log: Log, run: seq<Attempt>, key: string, n: nat)
    requires RunOk(rates, log, run) && n <= |run| && key in log
  {
    Within(Failures(rates, log, run[..n], key), RunLog(rates, log, run[..n])[key])
  }

  lemma KeptStepIff(rates: Rates, log: Log, run: seq<Attempt>, key: string, n: nat)
    requires RunOk(rates, log, run) && n < |run| && key in log && KeptAt(rates, log, run, key, n)
    ensures KeptAt(rates, log, run, key, n + 1) <==> UntiedAt(rates, log, run, key, n)
  {
    hide After, Within, Spares;
    var longer := run[..n + 1];
    assert longer[..n] == run[..n] && longer[n] == run[n];
    FailedKeptIff(rates, RunLog(rates, log, run[..n]), run[n], key, Failures(rates, log, run[..n], key));
  }

  lemma {:induction false} KeptUpTo(rates: Rates, log: Log, run: seq<Attempt>, key: string, n: nat)
    requires RunOk(rates, log, run) && n <= |run| && key in log && UntiedRun(rates, log, run, key)
    ensures KeptAt(rates, log, run, key, n)
  {
    hide UntiedAt;
    if n > 0 {
      hide KeptAt;
      KeptUpTo(rates, log, run, key, n - 1);
      KeptStepIff(rates, log, run, key, n - 1);
    }
  }

  /** Whatever the clock does: the failures of a run stay among the hits throughout if and only if no
      success gives back the stamp of one. */
  lemma FailuresKeptIff(rates: Rates, log: Log, run: seq<Attempt>, key: string)
    requires RunOk(rates, log, run) && key in log
    ensures (forall n :: 0 <= n <= |run| ==> KeptAt(rates, log, run, key, n)) <==> UntiedRun(rates, log, run, key)
  {
    hide KeptAt, UntiedAt;
    if UntiedRun(rates, log, run, key) {
      forall n | 0 <= n <= |run|
        ensures KeptAt(rates, log, run, key, n)
      {
        KeptUpTo(rates, log, run, key, n);
      }
    } else {
      var n :| 0 <= n < |run| && !UntiedAt(rates, log, run, key, n);
      if KeptAt(rates, log, run, key, n) {
        KeptStepIff(rates, log, run, key, n);
      }
    }
  }

  /** Over any mix of successes, failures and refusals, the failures in any window of a rate's
      length stay within its amount, as long as no success gives back the stamp of one. */
  lemma FailuresBounded(rates: Rates, log: Log, run: seq<Attempt>, key: string, from: real, t: real)
    requires RunOk(rates, log, run) && Timed(run, from) && UntiedRun(rates, log, run, key) && key in rates
    requires HitsOk(rates[key], log[key], from)
    ensures var hits := Window(Failures(rates, log, run, key), t - rates[key].duration, t);
      hits == [] || |hits| <= rates[key].amount
  {
    hide Window, Within, Timed, UntiedRun, RunLog, Failures, End, Descending, AllBelow, Spaced;
    RunKeeps(rates, log, run, key, from);
    KeptUpTo(rates, log, run, key, |run|);
    assert run[..|run|] == run;
    WithinWindow(Failures(rates, log, run, key), RunLog(rates, log, run)[key], t - rates[key].duration, t);
    WindowBound(RunLog(rates, log, run)[key], rates[key].amount, rates[key].duration, t);
  }

  /** The clock strictly increases from one attempt to the next, and within each. */
  ghost predicate StrictlyTimed(run: seq<Attempt>, from: real) {
    run == [] ||
    var a, before := run[|run| - 1], End(run[..|run| - 1], from);
    StrictlyTimed(run[..|run| - 1], from) && Increasing(a.turns, before) && Increasing(a.again, Last(a.turns, before))
  }

  lemma StrictAttempt(rates: Rates, log: Log, a: Attempt, key: string, failed: seq<real>, t: real)
    requires WellFormed(rates, log, a) && Increasing(a.turns, t) && Increasing(a.again, Last(a.turns, t))
    requires AllBelow(failed, t)
    ensures NonDecreasing(a.turns, t) && NonDecreasing(a.again, Last(a.turns, t))
    ensures Spares(rates, log, a, key, failed)
    ensures AllBelow(FailuresAfter(rates, log, a, key, failed), Last(a.again, Last(a.turns, t)))
  {
    hide After;
  }

  /** Then every stamp is new: no success ever gives back another's. */
  lemma {:induction false} StrictlyTimedIsUntied(rates: Rates, log: Log, run: seq<Attempt>, key: string, from: real)
    requires RunOk(rates, log, run) && StrictlyTimed(run, from)
    ensures Timed(run, from) && UntiedRun(rates, log, run, key)
    ensures AllBelow(Failures(rates, log, run, key), End(run, from))
  {
    if run != [] {
      hide After, UntiedRun, Spares, AllBelow, NonDecreasing, Increasing, FailuresAfter, Last;
      var before, failed := run[..|run| - 1], Failures(rates, log, run[..|run| - 1], key);
      StrictlyTimedIsUntied(rates, log, before, key, from);
      StrictAttempt(rates, RunLog(rates, log, before), run[|run| - 1], key, failed, End(before, from));
      UntiedSnoc(rates, log, run, key);
    }
  }

  lemma UntiedSnoc(rates: Rates, log: Log, run: seq<Attempt>, key: string)
    requires run != [] && RunOk(rates, log, run) && RunOk(rates, log, run[..|run| - 1])
    requires UntiedRun(rates, log, run[..|run| - 1], key) && UntiedAt(rates, log, run, key, |run| - 1)
    ensures UntiedRun(rates, log, run, key)
  {
    hide Spares, RunLog, Failures;
    var before := run[..|run| - 1];
    forall n {:trigger UntiedAt(rates, log, run, key, n)} | 0 <= n < |run|
      ensures UntiedAt(rates, log, run, key, n)
    {
      if n < |before| {
        assert UntiedAt(rates, log, before, key, n) && before[n] == run[n] && before[..n] == run[..n];
      }
    }
  }

  /** With a strictly increasing clock the failures are bounded without further ado. */
  lemma FailuresBoundedStrictly(rates: Rates, log: Log, run: seq<Attempt>, key: string, from: real, t: real)
    requires RunOk(rates, log, run) && StrictlyTimed(run, from) && key in rates && HitsOk(rates[key], log[key], from)
    ensures var hits := Window(Failures(rates, log, run, key), t - rates[key].duration, t);
      hits == [] || |hits| <= rates[key].amount
  {
    hide Window, Timed, UntiedRun;
    StrictlyTimedIsUntied(rates, log, run, key, from);
    FailuresBounded(rates, log, run, key, from, t);
  }

  /** Why the clock has to move on: a failure and a success in the same tick have equal stamps, and
      giving back the success takes the failure with it. */
  lemma SharedTickErasesFailure(key: string, t: real)
    ensures var rates: Rates, log: Log, turn := map[key := Rate(2, 60.0)], map[key := []], Turn(key, true, t);
      var run := [Attempt([turn], false, [turn]), Attempt([turn], true, [turn])];
      && RunOk(rates, log, run) && NonDecreasing([turn] + [turn] + [turn], t)
      && Failures(rates, log, run, key) == [t] && RunLog(rates, log, run)[key] == []
  {
    var rates: Rates, log: Log, turn := map[key := Rate(2, 60.0)], map[key := []], Turn(key, true, t);
    var once: Log := map[key := [t]];
    var fails, succeeds := Attempt([turn], false, [turn]), Attempt([turn], true, [turn]);
    OneTurn(rates, log, turn, fails);
    OneTurn(rates, once, turn, succeeds);
    assert [t] + log[key] == [t] && log[key := [t]] == once;
    WithoutHead2(t);
    hide After, Without, Recent;
    var run := [fails, succeeds];
    assert run[..1] == [fails] && [fails][..0] == [];
    assert RunLog(rates, log, []) == log && RunLog(rates, log, [fails]) == once;
    assert Find([turn], key, 1) == 0;
    assert Failures(rates, log, [], key) == [] && Failures(rates, log, [fails], key) == [t];
    assert RunOk(rates, log, run) && run[1] == succeeds;
  }

  lemma WithoutHead2(t: real)
    ensures Without([t] + [t], t) == []
  {
    assert ([t] + [t])[1..] == [t] && [t][1..] == [] && Without([t], t) == [];
  }

  /** An attempt with a single rate that has room. */
  lemma OneTurn(rates: Rates, log: Log, turn: Turn, a: Attempt)
    requires log.Keys == rates.Keys && turn.key in rates && a.turns == [turn] == a.again && turn.locked
    requires |log[turn.key]| < rates[turn.key].amount && Descending(log[turn.key])
    ensures WellFormed(rates, log, a)
    ensures var hits := [turn.at] + log[turn.key];
      After(rates, log, a) ==
        if a.ok then (log[turn.key := Without(hits, turn.at)], Authenticated) else (log[turn.key := hits], Failed)
  {
    hide Recent, Without;
    RecentPrefix(log[turn.key], turn.at - rates[turn.key].duration);
    GrantsStep(rates, log, a.turns, false, 0);
    GrantsStep(rates, log, a.turns, false, 1);
    assert Room(rates, log, turn);
    var charged := log[turn.key := [turn.at] + log[turn.key]];
    assert Charged(log, a.turns, false, 1) == charged;
    var usages := UsageList(rates, a.turns);
    assert usages[0] == Usage(rates, turn);
    var rest := Without(charged[turn.key], turn.at);
    assert Undone(charged, usages, a.again, 1) == Undone(charged, usages, a.again, 0)[turn.key := rest];
    assert charged[turn.key := rest] == log[turn.key := rest];
  }
}
