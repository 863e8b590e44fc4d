/** What happened to the processes that verify a code, and the budgets this history must respect. */
module CodeLogs {
  import opened Options
  import opened UserCode

  datatype Kind = LoginCode | EmailCode | PasswordReset | ChangePhone | SignupPhone

  datatype Limits = Limits(maxAttempts: int, timeout: real, maxResends: int, maxChanges: int)

  /** The state of a process as the session stores it. `id` tells one process from another. */
  datatype State = State(
    id: nat,
    at: real,
    failed: nat,
    resends: nat,
    changes: nat,
    code: string,
    target: string,
    hasUser: bool,
    taken: bool,
    confirmed: bool)

  /** An acceptance is `kept` when the login it completes could not be stored, so that the old one,
      with its process, stays. */
  datatype Event =
    | Started(id: nat, at: real)
    | Coded(id: nat, code: string)
    | Rejected(id: nat)
    | Resent(id: nat)
    | Changed(id: nat)
    | Accepted(id: nat, at: real, now: real, text: string, code: string, kept: bool)
    | Ended(id: nat)

  function Most(a: int, b: int): int {
    if a < b then b else a
  }

  ghost function Times(log: seq<Event>, e: Event): nat {
    multiset(log)[e]
  }

  /** The code given out last. */
  ghost function LatestCode(log: seq<Event>, id: nat): Option<string> {
    if log == [] then None
    else
      var e := log[|log| - 1];
      if e.Coded? && e.id == id then Some(e.code) else LatestCode(log[..|log| - 1], id)
  }

  /** How often the code of a process was accepted for good. */
  ghost function Finals(log: seq<Event>, id: nat): nat {
    if log == [] then 0
    else
      var e := log[|log| - 1];
      Finals(log[..|log| - 1], id) + if e.Accepted? && e.id == id && !e.kept then 1 else 0
  }

  /** At most once. */
  ghost predicate AcceptedOnce(log: seq<Event>) {
    forall id {:trigger Finals(log, id)} :: Finals(log, id) <= 1
  }

  /** Only a code that completes a login stage may be accepted and leave its process where it was. */
  predicate KeepsLogin(kind: Kind) {
    kind.LoginCode? || kind.SignupPhone?
  }

  ghost predicate KeptOnlyByLogins(kind: Kind, log: seq<Event>) {
    forall e :: e in log && e.Accepted? && e.kept ==> KeepsLogin(kind)
  }

  /** No process has more rejected guesses, resends or changes than it may have. */
  ghost predicate Budgets(l: Limits, log: seq<Event>) {
    forall id ::
      && Times(log, Rejected(id)) <= Most(1, l.maxAttempts)
      && Times(log, Resent(id)) <= Most(0, l.maxResends)
      && Times(log, Changed(id)) <= Most(0, l.maxChanges)
  }

  /** The code was the latest one, was matched, and was not older than allowed. */
  ghost predicate Justified(l: Limits, before: seq<Event>, e: Event)
    requires e.Accepted?
  {
    && Started(e.id, e.at) in before && e.now - e.at <= l.timeout
    && LatestCode(before, e.id) == Some(e.code) && CompareUserCode(e.text, e.code) == Match
  }

  ghost predicate AllJustified(l: Limits, log: seq<Event>) {
    forall p {:trigger log[p]} :: 0 <= p < |log| && log[p].Accepted? ==> Justified(l, log[..p], log[p])
  }

  /** Nothing happens to a process that has ended: it is never resumed. */
  ghost predicate Final(log: seq<Event>) {
    forall p, q :: 0 <= p < q < |log| && log[p].Ended? ==> log[q].id != log[p].id
  }

  /** A process starts once: its start time never moves. */
  ghost predicate StartsOnce(log: seq<Event>) {
    forall p, q :: 0 <= p < q < |log| && log[p].Started? && log[q].Started? ==> log[q].id != log[p].id
  }

  ghost predicate Known(log: seq<Event>, nextId: nat) {
    forall e :: e in log ==> e.id < nextId
  }

  ghost predicate LogOk(kind: Kind, l: Limits, log: seq<Event>, nextId: nat) {
    && Budgets(l, log) && AllJustified(l, log) && Final(log) && StartsOnce(log) && Known(log, nextId)
    && AcceptedOnce(log) && KeptOnlyByLogins(kind, log)
  }

  /** The counters of a process that goes on are what the log says, or more. */
  ghost predicate Counted(l: Limits, log: seq<Event>, s: State) {
    && Started(s.id, s.at) in log && Ended(s.id) !in log && Finals(log, s.id) == (if s.confirmed then 1 else 0)
    && Times(log, Rejected(s.id)) == s.failed && (s.failed == 0 || s.failed < l.maxAttempts)
    && Times(log, Resent(s.id)) <= s.resends <= Most(0, l.maxResends)
    && Times(log, Changed(s.id)) <= s.changes <= Most(0, l.maxChanges)
  }

  ghost predicate SlotOk(l: Limits, log: seq<Event>, s: State) {
    Counted(l, log, s) && LatestCode(log, s.id) == Some(s.code)
  }

  ghost predicate May(kind: Kind, l: Limits, log: seq<Event>, e: Event) {
    match e
    case Started(id, at) => forall o :: o in log ==> o.id != id
    case Coded(_, _) => true
    case Rejected(_) => Times(log, e) < Most(1, l.maxAttempts)
    case Resent(_) => Times(log, e) < Most(0, l.maxResends)
    case Changed(_) => Times(log, e) < Most(0, l.maxChanges)
    case Accepted(_, _, _, _, _, _) => Justified(l, log, e) &&
      if e.kept then KeepsLogin(kind) else Finals(log, e.id) == 0
    case Ended(_) => true
  }

  lemma TimesAppend(log: seq<Event>, e: Event)
    ensures forall o :: Times(log + [e], o) == Times(log, o) + if o == e then 1 else 0
  {
    assert multiset(log + [e]) == multiset(log) + multiset{e};
  }

  lemma CodeAppend(log: seq<Event>, e: Event)
    ensures forall id ::
      LatestCode(log + [e], id) == if e.Coded? && e.id == id then Some(e.code) else LatestCode(log, id)
  {
    assert (log + [e])[..|log|] == log;
  }

  lemma FinalsAppend(log: seq<Event>, e: Event)
    ensures forall id {:trigger Finals(log + [e], id)} ::
      Finals(log + [e], id) == Finals(log, id) + if e.Accepted? && e.id == id && !e.kept then 1 else 0
  {
    assert (log + [e])[..|log|] == log;
  }

  lemma BudgetsAppend(kind: Kind, l: Limits, log: seq<Event>, e: Event)
    requires Budgets(l, log) && May(kind, l, log, e)
    ensures Budgets(l, log + [e])
  {
    TimesAppend(log, e);
  }

  lemma JustifiedAppend(kind: Kind, l: Limits, log: seq<Event>, e: Event)
    requires AllJustified(l, log) && May(kind, l, log, e)
    ensures AllJustified(l, log + [e])
  {
    var after := log + [e];
    forall p {:trigger after[p]} | 0 <= p < |after| && after[p].Accepted?
      ensures Justified(l, after[..p], after[p])
    {
      assert after[..p] == log[..p];
      assert log[..|log|] == log;
      assert p < |log| ==> after[p] == log[p];
    }
  }

  /** One more event of a process that has not ended. */
  lemma LogAppend(kind: Kind, l: Limits, log: seq<Event>, nextId: nat, e: Event)
    requires LogOk(kind, l, log, nextId) && May(kind, l, log, e) && Ended(e.id) !in log && e.id < nextId
    ensures LogOk(kind, l, log + [e], nextId)
  {
    BudgetsAppend(kind, l, log, e);
    FinalsAppend(log, e);
    JustifiedAppend(kind, l, log, e);
    var after := log + [e];
    forall p, q | 0 <= p < q < |after| && after[p].Ended?
      ensures after[q].id != after[p].id
    {
      if q == |log| {
        assert log[p] == after[p] && after[p] == Ended(after[p].id);
      }
    }
  }

  /** A process nobody has heard of. */
  lemma {:induction false} UnknownProcess(log: seq<Event>, nextId: nat, id: nat)
    requires Known(log, nextId) && id >= nextId
    ensures forall e :: e in log ==> e.id != id
    ensures Times(log, Rejected(id)) == 0 && Times(log, Resent(id)) == 0 && Times(log, Changed(id)) == 0
    ensures Finals(log, id) == 0
  {
    if log != [] {
      var last := |log| - 1;
      assert log[last] in log && Known(log[..last], nextId);
      UnknownProcess(log[..last], nextId, id);
    }
    assert Rejected(id) !in multiset(log) && Resent(id) !in multiset(log) && Changed(id) !in multiset(log);
  }

  // ---------- What a history says ----------

  lemma {:induction false} LatestCodeIs(log: seq<Event>, id: nat)
    requires LatestCode(log, id).Some?
    ensures exists q :: 0 <= q < |log| && log[q] == Coded(id, LatestCode(log, id).value)
                        && forall r :: q < r < |log| && log[r].Coded? ==> log[r].id != id
  {
    var last := |log| - 1;
    var e, before := log[last], log[..last];
    if e.Coded? && e.id == id {
      assert log[last] == Coded(id, LatestCode(log, id).value);
    } else {
      LatestCodeIs(before, id);
      var q :| 0 <= q < |before| && before[q] == Coded(id, LatestCode(log, id).value)
               && forall r :: q < r < |before| && before[r].Coded? ==> before[r].id != id;
      assert log[q] == before[q];
      forall r | q < r < |log| && log[r].Coded?
        ensures log[r].id != id
      {
        assert r < last ==> log[r] == before[r];
      }
    }
  }

  lemma {:induction false} FinalsCounted(log: seq<Event>, p: nat)
    requires p < |log| && log[p].Accepted? && !log[p].kept
    ensures Finals(log, log[p].id) >= 1
    ensures forall q | p < q < |log| && log[q].Accepted? && !log[q].kept :: log[q].id == log[p].id ==>
      Finals(log, log[p].id) >= 2
  {
    var last := |log| - 1;
    if p < last {
      assert log[..last][p] == log[p];
      FinalsCounted(log[..last], p);
      assert forall q :: 0 <= q < last ==> log[..last][q] == log[q];
    }
  }

  /** No budget is exceeded; a code is accepted only in time, when it is matched, and when it is the one
      given out last; and for good at most once. */
  lemma LogMeans(kind: Kind, l: Limits, log: seq<Event>, nextId: nat)
    requires LogOk(kind, l, log, nextId)
    ensures forall id ::
      && multiset(log)[Rejected(id)] <= (if l.maxAttempts < 1 then 1 else l.maxAttempts)
      && multiset(log)[Resent(id)] <= (if l.maxResends < 0 then 0 else l.maxResends)
      && multiset(log)[Changed(id)] <= (if l.maxChanges < 0 then 0 else l.maxChanges)
    ensures forall p {:trigger log[p]} :: 0 <= p < |log| && log[p].Accepted? ==> var e := log[p];
      && Started(e.id, e.at) in log[..p] && e.now - e.at <= l.timeout && CompareUserCode(e.text, e.code) == Match
      && exists q :: 0 <= q < p && log[q] == Coded(e.id, e.code)
                     && forall r :: q < r < p && log[r].Coded? ==> log[r].id != e.id
    ensures forall p, q | 0 <= p < q < |log| && log[p].Accepted? && log[q].Accepted? ::
      !log[p].kept && !log[q].kept ==> log[p].id != log[q].id
    ensures forall p, q :: 0 <= p < q < |log| && log[p].Ended? ==> log[q].id != log[p].id
  {
    hide CompareUserCode;
    forall id
      ensures multiset(log)[Rejected(id)] <= (if l.maxAttempts < 1 then 1 else l.maxAttempts)
      ensures multiset(log)[Resent(id)] <= (if l.maxResends < 0 then 0 else l.maxResends)
      ensures multiset(log)[Changed(id)] <= (if l.maxChanges < 0 then 0 else l.maxChanges)
    {
      assert Times(log, Rejected(id)) <= Most(1, l.maxAttempts);
    }
    forall p {:trigger log[p]} | 0 <= p < |log| && log[p].Accepted?
      ensures exists q :: 0 <= q < p && log[q] == Coded(log[p].id, log[p].code)
                          && forall r :: q < r < p && log[r].Coded? ==> log[r].id != log[p].id
    {
      assert Justified(l, log[..p], log[p]);
      LatestCodeIs(log[..p], log[p].id);
      var q :| 0 <= q < p && log[..p][q] == Coded(log[p].id, log[p].code)
               && forall r :: q < r < p && log[..p][r].Coded? ==> log[..p][r].id != log[p].id;
      assert log[q] == log[..p][q] && forall r :: q < r < p ==> log[..p][r] == log[r];
    }
    forall p, q | 0 <= p < q < |log| && log[p].Accepted? && log[q].Accepted? && !log[p].kept && !log[q].kept
      ensures log[p].id != log[q].id
    {
      FinalsCounted(log, p);
      assert Finals(log, log[p].id) <= 1;
    }
  }

  // ---------- Steps of one process ----------

  lemma NewCode(l: Limits, log: seq<Event>, s: State)
    requires Counted(l, log, s)
    ensures SlotOk(l, log + [Coded(s.id, s.code)], s)
  {
    TimesAppend(log, Coded(s.id, s.code));
    FinalsAppend(log, Coded(s.id, s.code));
    CodeAppend(log, Coded(s.id, s.code));
  }

  lemma NewProcess(l: Limits, log: seq<Event>, s: State)
    requires s.failed == s.resends == s.changes == 0 && !s.confirmed && forall o :: o in log ==> o.id != s.id
    requires Times(log, Rejected(s.id)) == 0 && Times(log, Resent(s.id)) == 0 && Times(log, Changed(s.id)) == 0
    requires Finals(log, s.id) == 0
    ensures Counted(l, log + [Started(s.id, s.at)], s)
  {
    TimesAppend(log, Started(s.id, s.at));
    FinalsAppend(log, Started(s.id, s.at));
  }

  lemma RejectionCounted(kind: Kind, l: Limits, log: seq<Event>, s: State)
    requires SlotOk(l, log, s)
    ensures May(kind, l, log, Rejected(s.id)) && Ended(s.id) !in log + [Rejected(s.id)]
    ensures s.failed + 1 < l.maxAttempts ==> SlotOk(l, log + [Rejected(s.id)], s.(failed := s.failed + 1))
  {
    TimesAppend(log, Rejected(s.id));
    FinalsAppend(log, Rejected(s.id));
    CodeAppend(log, Rejected(s.id));
  }

  lemma ResendCounted(kind: Kind, l: Limits, log: seq<Event>, s: State, t: State)
    requires Counted(l, log, s) && s.resends < l.maxResends
    requires SameCounters(s.(resends := s.resends + 1), t)
    ensures May(kind, l, log, Resent(s.id)) && Counted(l, log + [Resent(s.id)], t)
  {
    TimesAppend(log, Resent(s.id));
    FinalsAppend(log, Resent(s.id));
  }

  lemma ChangeCounted(kind: Kind, l: Limits, log: seq<Event>, s: State, t: State)
    requires Counted(l, log, s) && s.changes < l.maxChanges
    requires SameCounters(s.(changes := s.changes + 1), t)
    ensures May(kind, l, log, Changed(s.id)) && Counted(l, log + [Changed(s.id)], t)
  {
    TimesAppend(log, Changed(s.id));
    FinalsAppend(log, Changed(s.id));
  }

  /** An acceptance for good leaves the process confirmed, or it ends; one that is kept changes nothing. */
  lemma AcceptanceCounted(kind: Kind, l: Limits, log: seq<Event>, s: State, now: real, text: string, kept: bool)
    requires SlotOk(l, log, s) && now - s.at <= l.timeout && CompareUserCode(text, s.code) == Match
    requires !s.confirmed && (kept ==> KeepsLogin(kind))
    ensures var e := Accepted(s.id, s.at, now, text, s.code, kept);
      May(kind, l, log, e) && Ended(s.id) !in log + [e] && SlotOk(l, log + [e], s.(confirmed := !kept))
  {
    var e := Accepted(s.id, s.at, now, text, s.code, kept);
    TimesAppend(log, e);
    FinalsAppend(log, e);
    CodeAppend(log, e);
  }

  predicate SameCounters(s: State, t: State) {
    s.id == t.id && s.at == t.at && s.confirmed == t.confirmed
    && s.failed == t.failed && s.resends == t.resends && s.changes == t.changes
  }

  /** Counting ahead of the log does no harm within the quotas. */
  lemma StillCounted(l: Limits, log: seq<Event>, s: State, t: State)
    requires Counted(l, log, s) && s.id == t.id && s.at == t.at && s.failed == t.failed && s.confirmed == t.confirmed
    requires s.resends <= t.resends <= Most(s.resends, l.maxResends)
    requires s.changes <= t.changes <= Most(s.changes, l.maxChanges)
    ensures Counted(l, log, t)
  {
  }
}
