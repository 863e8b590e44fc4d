/** Requests that overlap: each works on a copy of the session and the last one to finish wins. */
module CodeOverlap {
  import opened Options
  import opened CodeLogs
  import opened CodeVerification

  /** What the session held over time while wrong guesses came in: guess `i` worked on the copy that
      was stored as number `from[i]`, and was the next to be stored. */
  ghost predicate Guesses(l: Limits, stored: seq<Option<State>>, from: seq<nat>) {
    && |stored| == |from| + 1
    && forall i :: 0 <= i < |from| ==> Guessed(l, stored, from, i)
  }

  ghost predicate Guessed(l: Limits, stored: seq<Option<State>>, from: seq<nat>, i: nat)
    requires |stored| == |from| + 1 && i < |from|
  {
    from[i] <= i && stored[from[i]].Some? && stored[i + 1] == Recorded(l, stored[from[i]].value)
  }

  /** Nobody loads the session before the guess before was stored. */
  ghost predicate OneByOne(from: seq<nat>) {
    forall i :: 0 <= i < |from| ==> from[i] == i
  }

  /** One by one, every guess is counted and the process ends with the last one it allows. */
  lemma {:induction false} OneByOneBounded(l: Limits, stored: seq<Option<State>>, from: seq<nat>)
    requires Guesses(l, stored, from) && OneByOne(from) && stored[0].Some?
    ensures |from| <= Most(1, l.maxAttempts - stored[0].value.failed)
    ensures stored[|from|].None? <==> |from| > 0 && stored[0].value.failed + |from| >= l.maxAttempts
    ensures stored[|from|].Some? ==> stored[|from|].value.failed == stored[0].value.failed + |from|
  {
    var n := |from|;
    if n > 0 {
      assert Guessed(l, stored, from, n - 1);
      var before, less := stored[..n], from[..n - 1];
      forall i | 0 <= i < |less|
        ensures Guessed(l, before, less, i)
      {
        assert Guessed(l, stored, from, i);
      }
      assert OneByOne(less);
      OneByOneBounded(l, before, less);
    }
  }

  /** All at once, any number of guesses is rejected and just one of them is counted, also when that is
      the last one that is allowed. */
  lemma AllAtOnceUnbounded(l: Limits, s: State, n: nat)
    ensures Guesses(l, seq(n + 1, i => if i == 0 then Some(s) else Recorded(l, s)), seq(n, i => 0))
  {
    var stored, from: seq<nat> := seq(n + 1, i => if i == 0 then Some(s) else Recorded(l, s)), seq(n, i => 0);
    forall i | 0 <= i < n
      ensures Guessed(l, stored, from, i)
    {
    }
  }

  /** A guess that loaded the session in time brings an exhausted process back. */
  lemma LateWriteRevives(l: Limits, s: State)
    requires s.failed + 1 < l.maxAttempts && s.failed + 2 >= l.maxAttempts
    ensures var once := s.(failed := s.failed + 1);
      Guesses(l, [Some(s), Some(once), None, Some(once)], [0, 1, 0])
  {
    var once := s.(failed := s.failed + 1);
    var stored, from: seq<nat> := [Some(s), Some(once), None, Some(once)], [0, 1, 0];
    assert Guessed(l, stored, from, 0) && Guessed(l, stored, from, 1) && Guessed(l, stored, from, 2);
  }
}
