/** Requests of every kind that overlap: each works on the copy it loaded, and stores it when it is
    done. What still holds, and exactly when the budgets do not. */
module CodeMixes {
  import opened Options
  import opened UserCode
  import opened CodeLogs
  import opened CodeVerification

  /** A request that loaded version `from` of the session. With `saves` the session is saved even if
      the request has nothing to store here, and its old copy is written back. */
  datatype Loaded = Loaded(r: Request, from: nat, saves: bool)

  function Written(w: Write, seen: Option<State>, current: Option<State>, saves: bool): Option<State> {
    if w.Keep? && saves then seen else Stored(w, current)
  }

  /** The versions of the session while requests overlap; request `i` is the one that stores version
      `i + 1`, and a process it starts is named `base + i`. */
  ghost predicate History(kind: Kind, l: Limits, stored: seq<Option<State>>, reqs: seq<Loaded>, base: nat) {
    && |stored| == |reqs| + 1 && (stored[0].Some? ==> stored[0].value.id < base)
    && forall i :: 0 <= i < |reqs| ==> Step(kind, l, stored, reqs, base, i)
  }

  ghost predicate Step(kind: Kind, l: Limits, stored: seq<Option<State>>, reqs: seq<Loaded>, base: nat, i: nat)
    requires |stored| == |reqs| + 1 && i < |reqs|
  {
    var q := reqs[i];
    && q.from <= i
    && stored[i + 1] == Written(Effect(kind, l, stored[q.from], q.r, base + i), stored[q.from], stored[i], q.saves)
  }

  // ---------- The start time ----------

  /** The version in which the process of version `v` was started, or 0 if it was there before. */
  ghost function Origin(kind: Kind, l: Limits, stored: seq<Option<State>>, reqs: seq<Loaded>, base: nat,
                        v: nat): (o: nat)
    requires History(kind, l, stored, reqs, base) && v < |stored|
    ensures o <= v
    decreases v
  {
    if v == 0 then 0
    else
      var q := reqs[v - 1];
      assert Step(kind, l, stored, reqs, base, v - 1);
      match Effect(kind, l, stored[q.from], q.r, base + v - 1)
      case Keep => Origin(kind, l, stored, reqs, base, if q.saves then q.from else v - 1)
      case Store(_) => if q.r.Initiate? then v else Origin(kind, l, stored, reqs, base, q.from)
      case Drop => v
  }

  lemma {:induction false} OriginFacts(kind: Kind, l: Limits, stored: seq<Option<State>>, reqs: seq<Loaded>, base: nat,
                                       v: nat)
    requires History(kind, l, stored, reqs, base) && v < |stored| && stored[v].Some?
    ensures var o := Origin(kind, l, stored, reqs, base, v);
      && stored[o].Some? && stored[o].value.id == stored[v].value.id && stored[o].value.at == stored[v].value.at
      && if o == 0 then stored[o].value.id < base else stored[o].value.id == base + o - 1
    decreases v
  {
    if v > 0 {
      var q := reqs[v - 1];
      assert Step(kind, l, stored, reqs, base, v - 1);
      var w := Effect(kind, l, stored[q.from], q.r, base + v - 1);
      hide Effect;
      if w.Keep? {
        OriginFacts(kind, l, stored, reqs, base, if q.saves then q.from else v - 1);
      } else if !q.r.Initiate? {
        OriginFacts(kind, l, stored, reqs, base, q.from);
      } else {
        StartedHere(kind, l, stored[q.from], q.r, base + v - 1);
      }
    }
  }

  lemma StartedHere(kind: Kind, l: Limits, seen: Option<State>, r: Request, id: nat)
    requires r.Initiate? && Effect(kind, l, seen, r, id).Store?
    ensures Effect(kind, l, seen, r, id).state.id == id
  {
  }

  /** However requests overlap, the start time of a process never moves. */
  lemma StartNeverMoves(kind: Kind, l: Limits, stored: seq<Option<State>>, reqs: seq<Loaded>, base: nat, u: nat, v: nat)
    requires History(kind, l, stored, reqs, base) && u < |stored| && v < |stored|
    requires stored[u].Some? && stored[v].Some? && stored[u].value.id == stored[v].value.id
    ensures stored[u].value.at == stored[v].value.at
  {
    OriginFacts(kind, l, stored, reqs, base, u);
    OriginFacts(kind, l, stored, reqs, base, v);
  }

  /** The request accepts the code. */
  ghost predicate AcceptsNow(kind: Kind, l: Limits, seen: Option<State>, r: Request) {
    && r.Guess? && seen.Some? && !Expired(l, seen.value, r.now) && !(kind.PasswordReset? && seen.value.confirmed)
    && Accepts(kind, seen.value, r.text, r.free)
  }

  /** So however requests overlap, no process accepts a code after its timeout, reckoned from any
      version of it. */
  lemma NothingAcceptedLate(kind: Kind, l: Limits, stored: seq<Option<State>>, reqs: seq<Loaded>, base: nat, i: nat,
                            v: nat)
    requires History(kind, l, stored, reqs, base) && i < |reqs| && v < |stored| && stored[v].Some?
    requires reqs[i].from <= i && AcceptsNow(kind, l, stored[reqs[i].from], reqs[i].r)
    requires stored[reqs[i].from].value.id == stored[v].value.id
    ensures reqs[i].r.now - stored[v].value.at <= l.timeout
  {
    StartNeverMoves(kind, l, stored, reqs, base, reqs[i].from, v);
  }

  /** Once the timeout has passed for any version of a process, a request that loads that process,
      whichever version, does nothing but take it out; only starting another one is possible. A late
      write can bring the state back, but not to life. */
  lemma ExpiredStaysDead(kind: Kind, l: Limits, stored: seq<Option<State>>, reqs: seq<Loaded>, base: nat, i: nat,
                         v: nat)
    requires History(kind, l, stored, reqs, base) && i < |reqs| && v < |stored| && stored[v].Some?
    requires reqs[i].from <= i && stored[reqs[i].from].Some? && stored[reqs[i].from].value.id == stored[v].value.id
    requires !reqs[i].r.Initiate? && !reqs[i].r.GiveUp? ==> reqs[i].r.now - stored[v].value.at > l.timeout
    ensures !reqs[i].r.Initiate? ==>
      Effect(kind, l, stored[reqs[i].from], reqs[i].r, base + i).Drop? && stored[i + 1] == None
  {
    assert Step(kind, l, stored, reqs, base, i);
    StartNeverMoves(kind, l, stored, reqs, base, reqs[i].from, v);
  }

  // ---------- After the end ----------

  /** The request has something to store on an unexpired copy: a rejected guess with attempts left, the
      confirmation of a password reset, or a resend or change, be it half done. */
  ghost predicate Alters(kind: Kind, l: Limits, s: State, r: Request) {
    match r
    case Guess(_, text, free, _) =>
      && !(kind.PasswordReset? && s.confirmed)
      && if Rejects(kind, s, text, free) then s.failed + 1 < l.maxAttempts
         else Accepts(kind, s, text, free) && kind.PasswordReset?
    case Resend(_, _, fault, leak) => CanResend(kind, l, s) && (fault == Fine || leak)
    case Change(_, _, _, _, before, fault, leak) => CanChange(kind, l, s, before) && (fault == Fine || leak)
    case _ => false
  }

  /** The request takes the process out: the last guess allowed, an accepted one, or the new password. */
  ghost predicate Ends(kind: Kind, l: Limits, s: State, r: Request) {
    match r
    case Guess(_, text, free, kept) =>
      && !(kind.PasswordReset? && s.confirmed)
      && if Rejects(kind, s, text, free) then s.failed + 1 >= l.maxAttempts
         else Accepts(kind, s, text, free) && !kind.PasswordReset? && !(KeepsLogin(kind) && kept)
    case Complete(_) => kind.PasswordReset? && s.confirmed
    case _ => false
  }

  lemma EffectByRequest(kind: Kind, l: Limits, seen: Option<State>, r: Request, id: nat)
    requires !r.Initiate? && !r.GiveUp?
    ensures var w := Effect(kind, l, seen, r, id);
      if seen.None? then w.Keep?
      else if Expired(l, seen.value, r.now) || Ends(kind, l, seen.value, r) then w.Drop?
      else w.Store? == Alters(kind, l, seen.value, r) && w.Keep? == !Alters(kind, l, seen.value, r)
  {
    hide CompareUserCode;
  }

  /** Where there is no process, a request other than starting one stores a process if and only if it
      loaded an unexpired copy from before the end, does not end it itself, and changes something in it
      or is saved anyway. Then that very process comes back. */
  lemma RevivedIff(kind: Kind, l: Limits, stored: seq<Option<State>>, reqs: seq<Loaded>, base: nat, i: nat)
    requires History(kind, l, stored, reqs, base) && i < |reqs| && stored[i].None? && !reqs[i].r.Initiate?
    ensures reqs[i].from <= i
    ensures var q := reqs[i];
      stored[i + 1].Some? <==>
        && q.from < i && stored[q.from].Some? && !q.r.GiveUp? && !Expired(l, stored[q.from].value, q.r.now)
        && !Ends(kind, l, stored[q.from].value, q.r)
        && (Alters(kind, l, stored[q.from].value, q.r) || q.saves)
    ensures stored[i + 1].Some? ==>
      && stored[reqs[i].from].Some? && stored[i + 1].value.id == stored[reqs[i].from].value.id
      && stored[i + 1].value.at == stored[reqs[i].from].value.at
  {
    assert Step(kind, l, stored, reqs, base, i);
    if !reqs[i].r.GiveUp? {
      EffectByRequest(kind, l, stored[reqs[i].from], reqs[i].r, base + i);
      hide Effect, Alters, Ends;
    }
  }

  /** A witness: a code is accepted, a late wrong guess brings its process back, and it is accepted again. */
  lemma AcceptedTwice(l: Limits, at: real)
    requires l.maxAttempts > 1 && l.timeout >= 0.0
    ensures var s := State(0, at, 0, 0, 0, "1", "a@b.c", true, false, false);
      var right, wrong := Guess(at, "1", true, false), Guess(at, "2", true, false);
      var stored := [Some(s), None, Some(s.(failed := 1)), None];
      var reqs := [Loaded(right, 0, false), Loaded(wrong, 0, false), Loaded(right, 2, false)];
      && History(EmailCode, l, stored, reqs, 1)
      && AcceptsNow(EmailCode, l, stored[0], right) && AcceptsNow(EmailCode, l, stored[2], right)
  {
    OneAndTwo();
    hide CompareUserCode;
    var s := State(0, at, 0, 0, 0, "1", "a@b.c", true, false, false);
    var right, wrong := Guess(at, "1", true, false), Guess(at, "2", true, false);
    var stored := [Some(s), None, Some(s.(failed := 1)), None];
    var reqs := [Loaded(right, 0, false), Loaded(wrong, 0, false), Loaded(right, 2, false)];
    assert Step(EmailCode, l, stored, reqs, 1, 0);
    assert Step(EmailCode, l, stored, reqs, 1, 1);
    assert Step(EmailCode, l, stored, reqs, 1, 2);
  }

  /** A witness without any process coming back: two right guesses at the same time. */
  lemma AcceptedTwiceAtOnce(l: Limits, at: real)
    requires l.timeout >= 0.0
    ensures var s := State(0, at, 0, 0, 0, "1", "a@b.c", true, false, false);
      var right := Guess(at, "1", true, false);
      && History(EmailCode, l, [Some(s), None, None], [Loaded(right, 0, false), Loaded(right, 0, false)], 1)
      && AcceptsNow(EmailCode, l, Some(s), right)
  {
    OneAndTwo();
    hide CompareUserCode;
    var s := State(0, at, 0, 0, 0, "1", "a@b.c", true, false, false);
    var right := Guess(at, "1", true, false);
    var stored, reqs := [Some(s), None, None], [Loaded(right, 0, false), Loaded(right, 0, false)];
    assert Step(EmailCode, l, stored, reqs, 1, 0) && Step(EmailCode, l, stored, reqs, 1, 1);
  }

  lemma OneAndTwo()
    ensures CompareUserCode("1", "1") == Match && CompareUserCode("2", "1") == NoMatch
  {
    assert Strip("1") == "1" && Strip("2") == "2" && Lower("1") == "1" && Lower("2") == "2";
  }

  // ---------- The budgets ----------

  datatype Sort = Guesses | Resends | Changes

  function Counter(s: State, c: Sort): nat {
    match c
    case Guesses => s.failed
    case Resends => s.resends
    case Changes => s.changes
  }

  function SortOf(r: Request): Sort {
    if r.Resend? then Resends else if r.Change? then Changes else Guesses
  }

  function Budget(l: Limits, c: Sort): int {
    match c
    case Guesses => Most(1, l.maxAttempts)
    case Resends => Most(0, l.maxResends)
    case Changes => Most(0, l.maxChanges)
  }

  /** The request rejects a guess, or completes a resend or a change. */
  ghost predicate Counts(kind: Kind, l: Limits, s: State, r: Request) {
    match r
    case Guess(now, text, free, _) =>
      !Expired(l, s, now) && !(kind.PasswordReset? && s.confirmed) && Rejects(kind, s, text, free)
    case Resend(now, _, fault, _) => !Expired(l, s, now) && CanResend(kind, l, s) && fault == Fine
    case Change(now, _, _, _, before, fault, _) => !Expired(l, s, now) && CanChange(kind, l, s, before) && fault == Fine
    case _ => false
  }

  /** The request is charged to a counter: it counts, or it fails after its counter went up and the
      session is saved nevertheless. */
  ghost predicate Charges(kind: Kind, l: Limits, s: State, r: Request) {
    || Counts(kind, l, s, r)
    || (r.Resend? && !Expired(l, s, r.now) && CanResend(kind, l, s) && r.leak && kind.SignupPhone?)
    || (r.Change? && !Expired(l, s, r.now) && CanChange(kind, l, s, r.loggedInBefore) && r.leak
      && !(kind.EmailCode? && r.fault.Early?))
  }

  /** What a request does to the counters of the copy it loaded. */
  lemma EffectOnCounters(kind: Kind, l: Limits, s: State, r: Request, id: nat)
    requires !r.Initiate?
    ensures var w := Effect(kind, l, Some(s), r, id);
      && (w.Keep? ==> !Charges(kind, l, s, r))
      && (w.Store? ==> forall c ::
           Counter(w.state, c) == Counter(s, c) + if Charges(kind, l, s, r) && c == SortOf(r) then 1 else 0)
      && (w.Drop? && Charges(kind, l, s, r) ==> r.Guess? && s.failed + 1 >= l.maxAttempts)
  {
    hide CompareUserCode;
  }

  ghost predicate ChargesAt(kind: Kind, l: Limits, stored: seq<Option<State>>, reqs: seq<Loaded>, p: nat, i: nat)
    requires |stored| == |reqs| + 1 && i < |reqs|
  {
    reqs[i].from <= i && stored[reqs[i].from].Some? && stored[reqs[i].from].value.id == p
    && Charges(kind, l, stored[reqs[i].from].value, reqs[i].r)
  }

  /** How many requests of a sort were charged to process `p` by version `v`. */
  ghost function Spent(kind: Kind, l: Limits, stored: seq<Option<State>>, reqs: seq<Loaded>, p: nat, c: Sort,
                       v: nat): nat
    requires |stored| == |reqs| + 1 && v <= |reqs|
  {
    if v == 0 then 0
    else Spent(kind, l, stored, reqs, p, c, v - 1)
         + if ChargesAt(kind, l, stored, reqs, p, v - 1) && SortOf(reqs[v - 1].r) == c then 1 else 0
  }

  ghost predicate SameSpent(kind: Kind, l: Limits, stored: seq<Option<State>>, reqs: seq<Loaded>, p: nat, c: Sort,
                            u: nat, w: nat)
    requires |stored| == |reqs| + 1 && u <= w <= |reqs|
  {
    Spent(kind, l, stored, reqs, p, c, u) == Spent(kind, l, stored, reqs, p, c, w)
  }

  /** No request that stores a version after `u`, up to `w`, was charged to the process. */
  ghost predicate NoCharge(kind: Kind, l: Limits, stored: seq<Option<State>>, reqs: seq<Loaded>, p: nat, u: nat, w: nat)
    requires |stored| == |reqs| + 1 && u <= w <= |reqs|
  {
    forall k {:trigger ChargesAt(kind, l, stored, reqs, p, k)} :: u <= k < w ==> !ChargesAt(kind, l, stored, reqs, p, k)
  }

  /** The version that version `v` builds upon. */
  ghost function Parent(kind: Kind, l: Limits, stored: seq<Option<State>>, reqs: seq<Loaded>, base: nat,
                        v: nat): (u: nat)
    requires History(kind, l, stored, reqs, base) && 0 < v < |stored|
    ensures u < v
  {
    var q := reqs[v - 1];
    assert Step(kind, l, stored, reqs, base, v - 1);
    if Effect(kind, l, stored[q.from], q.r, base + v - 1).Keep? && !q.saves then v - 1 else q.from
  }

  /** From the start of its process on, no version that version `v` builds upon was stored past a
      charge: every link of the chain skips only requests that were not charged to the process. */
  ghost predicate Kept(kind: Kind, l: Limits, stored: seq<Option<State>>, reqs: seq<Loaded>, base: nat, p: nat, v: nat)
    requires History(kind, l, stored, reqs, base) && v < |stored|
    decreases v
  {
    v == Origin(kind, l, stored, reqs, base, v) ||
    var u := Parent(kind, l, stored, reqs, base, v);
    && Kept(kind, l, stored, reqs, base, p, u)
    && NoCharge(kind, l, stored, reqs, p, u, v - 1)
  }

  /** One link of the chain. */
  lemma Link(kind: Kind, l: Limits, stored: seq<Option<State>>, reqs: seq<Loaded>, base: nat, v: nat)
    requires History(kind, l, stored, reqs, base) && 0 < v < |stored| && stored[v].Some?
    requires Origin(kind, l, stored, reqs, base, v) < v
    ensures var u, p := Parent(kind, l, stored, reqs, base, v), stored[v].value.id;
      && stored[u].Some? && stored[u].value.id == p
      && Origin(kind, l, stored, reqs, base, u) == Origin(kind, l, stored, reqs, base, v)
      && (u < v - 1 ==> u == reqs[v - 1].from)
      && forall c :: Counter(stored[v].value, c) == Counter(stored[u].value, c)
           + if ChargesAt(kind, l, stored, reqs, p, v - 1) && SortOf(reqs[v - 1].r) == c then 1 else 0
  {
    hide Charges;
    var q := reqs[v - 1];
    assert Step(kind, l, stored, reqs, base, v - 1);
    var seen := stored[q.from];
    if seen.Some? && !q.r.Initiate? {
      EffectOnCounters(kind, l, seen.value, q.r, base + v - 1);
    }
    if Effect(kind, l, seen, q.r, base + v - 1).Keep? && q.r.Initiate? {
      InitiateCharges(kind, l, stored, reqs, v - 1);
    }
    hide Effect, Counter;
  }

  /** Version `w` is among those that version `v` builds upon. */
  ghost predicate BuildsOn(kind: Kind, l: Limits, stored: seq<Option<State>>, reqs: seq<Loaded>, base: nat, w: nat,
                           v: nat)
    requires History(kind, l, stored, reqs, base) && v < |stored|
    decreases v
  {
    v == w || (Origin(kind, l, stored, reqs, base, v) < v
               && BuildsOn(kind, l, stored, reqs, base, w, Parent(kind, l, stored, reqs, base, v)))
  }

  /** The code is accepted, and the process does not stay for another guess. */
  ghost predicate AcceptsForGood(kind: Kind, l: Limits, seen: Option<State>, r: Request) {
    AcceptsNow(kind, l, seen, r) && !(KeepsLogin(kind) && r.kept)
  }

  /** A version that builds on a confirmed password reset is one. */
  lemma {:induction false} StaysConfirmed(l: Limits, stored: seq<Option<State>>, reqs: seq<Loaded>, base: nat, w: nat,
                                          v: nat)
    requires History(PasswordReset, l, stored, reqs, base) && v < |stored| && stored[v].Some?
    requires BuildsOn(PasswordReset, l, stored, reqs, base, w, v) && w < |stored|
    requires stored[w].Some? && stored[w].value.confirmed
    ensures stored[v].value.confirmed
    decreases v
  {
    if v != w {
      hide Effect;
      Link(PasswordReset, l, stored, reqs, base, v);
      var u := Parent(PasswordReset, l, stored, reqs, base, v);
      StaysConfirmed(l, stored, reqs, base, w, u);
      var q := reqs[v - 1];
      assert Step(PasswordReset, l, stored, reqs, base, v - 1);
      if u == q.from && !q.r.Initiate? {
        ConfirmedIsKept(l, stored[u], q.r, base + v - 1);
      }
    }
  }

  lemma ConfirmedIsKept(l: Limits, seen: Option<State>, r: Request, id: nat)
    requires !r.Initiate? && seen.Some? && seen.value.confirmed
    ensures !Effect(PasswordReset, l, seen, r, id).Store?
  {
  }

  /** Version `v` is from before request `i` was done, or builds on one that was stored later on a copy
      from before. */
  ghost predicate BuiltPast(kind: Kind, l: Limits, stored: seq<Option<State>>, reqs: seq<Loaded>, base: nat, i: nat,
                            v: nat)
    requires History(kind, l, stored, reqs, base) && v < |stored|
  {
    v <= i ||
    exists w :: i + 1 < w <= v && BuildsOn(kind, l, stored, reqs, base, w, v)
                && Parent(kind, l, stored, reqs, base, w) <= i
  }

  lemma {:induction false} NotOnIsPast(kind: Kind, l: Limits, stored: seq<Option<State>>, reqs: seq<Loaded>, base: nat,
                                       i: nat, v: nat)
    requires History(kind, l, stored, reqs, base) && v < |stored| && stored[v].Some?
    requires Origin(kind, l, stored, reqs, base, v) <= i && !BuildsOn(kind, l, stored, reqs, base, i + 1, v)
    ensures BuiltPast(kind, l, stored, reqs, base, i, v)
    decreases v
  {
    hide History, Origin, Parent;
    if v > i {
      Link(kind, l, stored, reqs, base, v);
      var u := Parent(kind, l, stored, reqs, base, v);
      if u <= i {
        assert BuildsOn(kind, l, stored, reqs, base, v, v);
      } else {
        NotOnIsPast(kind, l, stored, reqs, base, i, u);
        var w :| i + 1 < w <= u && BuildsOn(kind, l, stored, reqs, base, w, u)
                 && Parent(kind, l, stored, reqs, base, w) <= i;
        assert BuildsOn(kind, l, stored, reqs, base, w, v);
      }
    }
  }

  lemma SameOrigin(kind: Kind, l: Limits, stored: seq<Option<State>>, reqs: seq<Loaded>, base: nat, u: nat, v: nat)
    requires History(kind, l, stored, reqs, base) && u < |stored| && v < |stored|
    requires stored[u].Some? && stored[v].Some? && stored[u].value.id == stored[v].value.id
    ensures Origin(kind, l, stored, reqs, base, u) == Origin(kind, l, stored, reqs, base, v)
  {
    hide Origin;
    OriginFacts(kind, l, stored, reqs, base, u);
    OriginFacts(kind, l, stored, reqs, base, v);
  }

  /** However requests overlap, a process accepts a code for good a second time only on a copy that was
      built past the first acceptance. */
  lemma AcceptedAgainOnlyPast(kind: Kind, l: Limits, stored: seq<Option<State>>, reqs: seq<Loaded>, base: nat, i: nat,
                              j: nat)
    requires History(kind, l, stored, reqs, base) && i < j < |reqs| && reqs[i].from <= i && reqs[j].from <= j
    requires AcceptsForGood(kind, l, stored[reqs[i].from], reqs[i].r)
    requires AcceptsForGood(kind, l, stored[reqs[j].from], reqs[j].r)
    requires stored[reqs[i].from].value.id == stored[reqs[j].from].value.id
    ensures BuiltPast(kind, l, stored, reqs, base, i, reqs[j].from)
  {
    AcceptedNotOn(kind, l, stored, reqs, base, i, j);
    SameOrigin(kind, l, stored, reqs, base, reqs[i].from, reqs[j].from);
    hide History, BuiltPast, BuildsOn;
    NotOnIsPast(kind, l, stored, reqs, base, i, reqs[j].from);
  }

  lemma AcceptedNotOn(kind: Kind, l: Limits, stored: seq<Option<State>>, reqs: seq<Loaded>, base: nat, i: nat, j: nat)
    requires History(kind, l, stored, reqs, base) && i < j < |reqs| && reqs[i].from <= i && reqs[j].from <= j
    requires AcceptsForGood(kind, l, stored[reqs[i].from], reqs[i].r)
    requires AcceptsForGood(kind, l, stored[reqs[j].from], reqs[j].r)
    ensures !BuildsOn(kind, l, stored, reqs, base, i + 1, reqs[j].from)
  {
    var u := reqs[j].from;
    if BuildsOn(kind, l, stored, reqs, base, i + 1, u) {
      BuiltOnIsThere(kind, l, stored, reqs, base, i + 1, u);
      AcceptedStores(kind, l, stored, reqs, base, i);
      StaysConfirmed(l, stored, reqs, base, i + 1, u);
    }
  }

  lemma AcceptedStores(kind: Kind, l: Limits, stored: seq<Option<State>>, reqs: seq<Loaded>, base: nat, i: nat)
    requires History(kind, l, stored, reqs, base) && i < |reqs| && reqs[i].from <= i
    requires AcceptsForGood(kind, l, stored[reqs[i].from], reqs[i].r)
    ensures if kind.PasswordReset? then stored[i + 1].Some? && stored[i + 1].value.confirmed else stored[i + 1].None?
  {
    hide CompareUserCode;
    assert Step(kind, l, stored, reqs, base, i);
  }

  lemma {:induction false} BuiltOnIsThere(kind: Kind, l: Limits, stored: seq<Option<State>>, reqs: seq<Loaded>,
                                          base: nat, w: nat, v: nat)
    requires History(kind, l, stored, reqs, base) && v < |stored| && stored[v].Some?
    requires BuildsOn(kind, l, stored, reqs, base, w, v)
    ensures w < |stored| && stored[w].Some?
    decreases v
  {
    hide Effect, Origin, Parent, Step;
    if v != w {
      Link(kind, l, stored, reqs, base, v);
      BuiltOnIsThere(kind, l, stored, reqs, base, w, Parent(kind, l, stored, reqs, base, v));
    }
  }

  lemma InitiateCharges(kind: Kind, l: Limits, stored: seq<Option<State>>, reqs: seq<Loaded>, i: nat)
    requires |stored| == |reqs| + 1 && i < |reqs| && reqs[i].r.Initiate?
    ensures forall p :: !ChargesAt(kind, l, stored, reqs, p, i)
  {
  }

  lemma {:induction false} SpentGrows(kind: Kind, l: Limits, stored: seq<Option<State>>, reqs: seq<Loaded>, p: nat,
                                      c: Sort, u: nat, v: nat)
    requires |stored| == |reqs| + 1 && u <= v <= |reqs|
    ensures Spent(kind, l, stored, reqs, p, c, u) <= Spent(kind, l, stored, reqs, p, c, v)
    ensures Spent(kind, l, stored, reqs, p, c, u) == Spent(kind, l, stored, reqs, p, c, v) <==>
      forall k {:trigger ChargesAt(kind, l, stored, reqs, p, k)} :: u <= k < v ==>
        !(ChargesAt(kind, l, stored, reqs, p, k) && SortOf(reqs[k].r) == c)
  {
    hide ChargesAt;
    if u < v {
      SpentGrows(kind, l, stored, reqs, p, c, u, v - 1);
    }
  }

  /** What was spent since the process of version `v` started. */
  ghost function SpentSince(kind: Kind, l: Limits, stored: seq<Option<State>>, reqs: seq<Loaded>, base: nat, c: Sort,
                            v: nat): int
    requires History(kind, l, stored, reqs, base) && v < |stored| && stored[v].Some?
  {
    var p, o := stored[v].value.id, Origin(kind, l, stored, reqs, base, v);
    Spent(kind, l, stored, reqs, p, c, v) - Spent(kind, l, stored, reqs, p, c, o)
  }

  ghost function Began(kind: Kind, l: Limits, stored: seq<Option<State>>, reqs: seq<Loaded>, base: nat, v: nat): State
    requires History(kind, l, stored, reqs, base) && v < |stored| && stored[v].Some?
  {
    OriginFacts(kind, l, stored, reqs, base, v);
    stored[Origin(kind, l, stored, reqs, base, v)].value
  }

  ghost predicate Accurate(kind: Kind, l: Limits, stored: seq<Option<State>>, reqs: seq<Loaded>, base: nat, c: Sort,
                           v: nat)
    requires History(kind, l, stored, reqs, base) && v < |stored| && stored[v].Some?
  {
    Counter(stored[v].value, c) ==
      Counter(Began(kind, l, stored, reqs, base, v), c) + SpentSince(kind, l, stored, reqs, base, c, v)
  }

  /** Nothing of any sort was passed over exactly when no charge was. */
  lemma PassedOver(kind: Kind, l: Limits, stored: seq<Option<State>>, reqs: seq<Loaded>, p: nat, u: nat, w: nat)
    requires |stored| == |reqs| + 1 && u <= w <= |reqs|
    ensures (forall c :: SameSpent(kind, l, stored, reqs, p, c, u, w)) <==> NoCharge(kind, l, stored, reqs, p, u, w)
  {
    hide ChargesAt, Spent;
    if forall c :: SameSpent(kind, l, stored, reqs, p, c, u, w) {
      forall k {:trigger ChargesAt(kind, l, stored, reqs, p, k)} | u <= k < w
        ensures !ChargesAt(kind, l, stored, reqs, p, k)
      {
        assert SameSpent(kind, l, stored, reqs, p, SortOf(reqs[k].r), u, w);
        SpentGrows(kind, l, stored, reqs, p, SortOf(reqs[k].r), u, w);
      }
    }
    if NoCharge(kind, l, stored, reqs, p, u, w) {
      forall c
        ensures SameSpent(kind, l, stored, reqs, p, c, u, w)
      {
        SpentGrows(kind, l, stored, reqs, p, c, u, w);
      }
    }
  }

  /** However requests overlap: the counters of a process never run ahead of what was charged to it,
      and all of them are right if and only if no charge was passed over on the way to the version
      that is stored. */
  lemma {:induction false} AllCountedIff(kind: Kind, l: Limits, stored: seq<Option<State>>, reqs: seq<Loaded>,
                                         base: nat, v: nat)
    requires History(kind, l, stored, reqs, base) && v < |stored| && stored[v].Some?
    ensures forall c ::
      Counter(stored[v].value, c) <= Counter(Began(kind, l, stored, reqs, base, v), c)
        + SpentSince(kind, l, stored, reqs, base, c, v)
    ensures (forall c :: Accurate(kind, l, stored, reqs, base, c, v)) <==>
      Kept(kind, l, stored, reqs, base, stored[v].value.id, v)
    decreases v
  {
    hide ChargesAt, Counter, Effect, Parent, Origin, Step;
    var o, p := Origin(kind, l, stored, reqs, base, v), stored[v].value.id;
    if o < v {
      Link(kind, l, stored, reqs, base, v);
      var u := Parent(kind, l, stored, reqs, base, v);
      AllCountedIff(kind, l, stored, reqs, base, u);
      var w := v - 1;
      forall c
        ensures Spent(kind, l, stored, reqs, p, c, u) <= Spent(kind, l, stored, reqs, p, c, w)
        ensures Accurate(kind, l, stored, reqs, base, c, v) <==>
          Accurate(kind, l, stored, reqs, base, c, u) && SameSpent(kind, l, stored, reqs, p, c, u, w)
      {
        SpentGrows(kind, l, stored, reqs, p, c, u, w);
      }
      PassedOver(kind, l, stored, reqs, p, u, w);
    }
  }

  /** When every request loads what the one before it stored, nothing is passed over. */
  lemma {:induction false} OneByOneKept(kind: Kind, l: Limits, stored: seq<Option<State>>, reqs: seq<Loaded>, base: nat,
                                        v: nat)
    requires History(kind, l, stored, reqs, base) && v < |stored| && stored[v].Some?
    requires forall i :: 0 <= i < |reqs| ==> reqs[i].from == i
    ensures Kept(kind, l, stored, reqs, base, stored[v].value.id, v)
  {
    hide Effect, ChargesAt, Origin, Step;
    if Origin(kind, l, stored, reqs, base, v) < v {
      Link(kind, l, stored, reqs, base, v);
      OneByOneKept(kind, l, stored, reqs, base, v - 1);
    }
  }

  // ---------- What may still be asked, one request after the other ----------

  ghost predicate WithinLimits(l: Limits, s: State) {
    (s.failed == 0 || s.failed < l.maxAttempts) && s.resends <= Budget(l, Resends) && s.changes <= Budget(l, Changes)
  }

  function Remaining(l: Limits, s: State, c: Sort): int {
    match c
    case Guesses => Most(1, l.maxAttempts - s.failed)
    case Resends => Most(0, l.maxResends - s.resends)
    case Changes => Most(0, l.maxChanges - s.changes)
  }

  /** The same request again and again, one after the other: how often it counts. */
  ghost function Repeated(kind: Kind, l: Limits, seen: Option<State>, r: Request): nat
    decreases if seen.Some? then Remaining(l, seen.value, SortOf(r)) + 1 else 0
  {
    if seen.Some? && Counts(kind, l, seen.value, r) then
      CountLowers(kind, l, seen.value, r);
      Repeated(kind, l, Stored(Effect(kind, l, seen, r, 0), seen), r) + 1
    else 0
  }

  lemma CountLowers(kind: Kind, l: Limits, s: State, r: Request)
    requires Counts(kind, l, s, r)
    ensures var next := Stored(Effect(kind, l, Some(s), r, 0), Some(s));
      && (next.Some? ==> 0 < Remaining(l, next.value, SortOf(r)) + 1 == Remaining(l, s, SortOf(r)))
      && (next.None? ==> Remaining(l, s, SortOf(r)) == 1 && r.Guess?)
  {
    hide CompareUserCode;
  }

  /** `r` counts on `s` as far as its quota goes. */
  ghost predicate Fits(kind: Kind, l: Limits, s: State, r: Request) {
    match r
    case Guess(_, _, _, _) => Counts(kind, l, s, r)
    case Resend(now, _, fault, _) => !Expired(l, s, now) && (kind.LoginCode? || kind.EmailCode? || kind.SignupPhone?)
      && fault == Fine
    case Change(now, _, _, _, before, fault, _) =>
      !Expired(l, s, now) && (kind.EmailCode? || kind.SignupPhone?) && s.hasUser && !before && fault == Fine
    case _ => false
  }

  lemma {:induction false} RepeatedIsRemaining(kind: Kind, l: Limits, s: State, r: Request)
    requires Fits(kind, l, s, r)
    ensures Repeated(kind, l, Some(s), r) == Remaining(l, s, SortOf(r))
    decreases Remaining(l, s, SortOf(r))
  {
    if Counts(kind, l, s, r) {
      CountLowers(kind, l, s, r);
      var next := Stored(Effect(kind, l, Some(s), r, 0), Some(s));
      if next.Some? {
        FitsOn(kind, l, s, r);
        RepeatedIsRemaining(kind, l, next.value, r);
      }
    }
  }

  lemma FitsOn(kind: Kind, l: Limits, s: State, r: Request)
    requires Fits(kind, l, s, r) && Counts(kind, l, s, r) && Stored(Effect(kind, l, Some(s), r, 0), Some(s)).Some?
    ensures Fits(kind, l, Stored(Effect(kind, l, Some(s), r, 0), Some(s)).value, r)
  {
    hide CompareUserCode;
  }

  lemma EffectWithin(kind: Kind, l: Limits, seen: Option<State>, r: Request, id: nat)
    requires seen.Some? ==> WithinLimits(l, seen.value)
    ensures Effect(kind, l, seen, r, id).Store? ==> WithinLimits(l, Effect(kind, l, seen, r, id).state)
  {
    hide CompareUserCode;
  }

  lemma {:induction false} StaysWithin(kind: Kind, l: Limits, stored: seq<Option<State>>, reqs: seq<Loaded>, base: nat,
                                       v: nat)
    requires History(kind, l, stored, reqs, base) && v < |stored|
    requires stored[0].Some? ==> WithinLimits(l, stored[0].value)
    ensures stored[v].Some? ==> WithinLimits(l, stored[v].value)
    decreases v
  {
    hide Effect, WithinLimits;
    if v > 0 {
      var q := reqs[v - 1];
      assert Step(kind, l, stored, reqs, base, v - 1);
      StaysWithin(kind, l, stored, reqs, base, q.from);
      StaysWithin(kind, l, stored, reqs, base, v - 1);
      EffectWithin(kind, l, stored[q.from], q.r, base + v - 1);
    }
  }

  lemma BudgetSplit(l: Limits, s: State, c: Sort)
    requires WithinLimits(l, s)
    ensures Counter(s, c) + Remaining(l, s, c) == Budget(l, c)
  {
  }

  /** However requests overlap: what a process had spent when it began, what was charged to it since,
      and what it still allows never fall short of its budgets, and exceed one if and only if a charge
      was passed over. */
  lemma OverrunIff(kind: Kind, l: Limits, stored: seq<Option<State>>, reqs: seq<Loaded>, base: nat, v: nat)
    requires History(kind, l, stored, reqs, base) && v < |stored| && stored[v].Some?
    requires stored[0].Some? ==> WithinLimits(l, stored[0].value)
    ensures (exists c :: Overrun(kind, l, stored, reqs, base, c, v) > 0)
      <==> !Kept(kind, l, stored, reqs, base, stored[v].value.id, v)
    ensures forall c :: Overrun(kind, l, stored, reqs, base, c, v) >= 0
  {
    hide History, Kept, SpentSince, Began;
    AllCountedIff(kind, l, stored, reqs, base, v);
    StaysWithin(kind, l, stored, reqs, base, v);
    forall c
      ensures Counter(stored[v].value, c) + Remaining(l, stored[v].value, c) == Budget(l, c)
    {
      BudgetSplit(l, stored[v].value, c);
    }
    forall c
      ensures Overrun(kind, l, stored, reqs, base, c, v) >= 0
      ensures Overrun(kind, l, stored, reqs, base, c, v) == 0 <==> Accurate(kind, l, stored, reqs, base, c, v)
    {
    }
  }

  /** By how much the budget of a sort is exceeded once everything that is still allowed was asked. */
  ghost function Overrun(kind: Kind, l: Limits, stored: seq<Option<State>>, reqs: seq<Loaded>, base: nat, c: Sort,
                         v: nat): int
    requires History(kind, l, stored, reqs, base) && v < |stored| && stored[v].Some?
  {
    Counter(Began(kind, l, stored, reqs, base, v), c) + SpentSince(kind, l, stored, reqs, base, c, v)
    + Remaining(l, stored[v].value, c) - Budget(l, c)
  }

  /** The request is charged in order: no charge was passed over on the way to the copy it loaded, nor
      between that copy and itself. */
  ghost predicate InOrder(kind: Kind, l: Limits, stored: seq<Option<State>>, reqs: seq<Loaded>, base: nat, p: nat,
                          i: nat)
    requires History(kind, l, stored, reqs, base) && i < |reqs|
  {
    && reqs[i].from <= i
    && Kept(kind, l, stored, reqs, base, p, reqs[i].from) && NoCharge(kind, l, stored, reqs, p, reqs[i].from, i)
  }

  /** By how much the budget of a sort is exceeded by request `i`, whether or not it ends the process,
      and by everything that its copy still allows after it. */
  ghost function Excess(kind: Kind, l: Limits, stored: seq<Option<State>>, reqs: seq<Loaded>, base: nat, c: Sort,
                        i: nat): int
    requires History(kind, l, stored, reqs, base) && i < |reqs| && reqs[i].from <= i && stored[reqs[i].from].Some?
  {
    var u := reqs[i].from;
    var p := stored[u].value.id;
    Counter(Began(kind, l, stored, reqs, base, u), c) + Spent(kind, l, stored, reqs, p, c, i + 1)
    + Remaining(l, stored[u].value, c) - (if c == SortOf(reqs[i].r) then 1 else 0) - Budget(l, c)
  }

  /** Before a process starts nothing is charged to it. */
  lemma {:induction false} NothingSpentBefore(kind: Kind, l: Limits, stored: seq<Option<State>>, reqs: seq<Loaded>,
                                              base: nat, v: nat, c: Sort, w: nat)
    requires History(kind, l, stored, reqs, base) && v < |stored| && stored[v].Some?
    requires w <= Origin(kind, l, stored, reqs, base, v)
    ensures Spent(kind, l, stored, reqs, stored[v].value.id, c, w) == 0
  {
    hide Origin, Charges, Step;
    if w > 0 {
      NothingSpentBefore(kind, l, stored, reqs, base, v, c, w - 1);
      if ChargesAt(kind, l, stored, reqs, stored[v].value.id, w - 1) {
        OriginFacts(kind, l, stored, reqs, base, v);
        OriginFacts(kind, l, stored, reqs, base, reqs[w - 1].from);
      }
    }
  }

  /** However requests overlap, and also when they end the process: at every charge, what was spent and
      what is still allowed never fall short of the budgets, and exceed one if and only if the charge is
      out of order. For the guess that ends the process the excess of guesses is what was rejected
      beyond the budget. */
  lemma ExcessIff(kind: Kind, l: Limits, stored: seq<Option<State>>, reqs: seq<Loaded>, base: nat, p: nat, i: nat)
    requires History(kind, l, stored, reqs, base) && i < |reqs| && ChargesAt(kind, l, stored, reqs, p, i)
    requires stored[0].Some? ==> WithinLimits(l, stored[0].value)
    ensures forall c :: Excess(kind, l, stored, reqs, base, c, i) >= 0
    ensures (exists c :: Excess(kind, l, stored, reqs, base, c, i) > 0) <==> !InOrder(kind, l, stored, reqs, base, p, i)
  {
    var u := reqs[i].from;
    StaysWithin(kind, l, stored, reqs, base, u);
    AllCountedIff(kind, l, stored, reqs, base, u);
    PassedOver(kind, l, stored, reqs, p, u, i);
    forall c
      ensures Excess(kind, l, stored, reqs, base, c, i) >= 0
      ensures Excess(kind, l, stored, reqs, base, c, i) == 0 <==>
        Accurate(kind, l, stored, reqs, base, c, u) && SameSpent(kind, l, stored, reqs, p, c, u, i)
    {
      BudgetSplit(l, stored[u].value, c);
      SpentGrows(kind, l, stored, reqs, p, c, u, i);
      NothingSpentBefore(kind, l, stored, reqs, base, u, c, Origin(kind, l, stored, reqs, base, u));
    }
    hide History, Kept, NoCharge, Excess, Accurate, SameSpent, ChargesAt;
  }

  /** What the process had spent before the first request. */
  ghost function SpentBefore(stored: seq<Option<State>>, p: nat, c: Sort): nat
    requires |stored| > 0
  {
    if stored[0].Some? && stored[0].value.id == p then Counter(stored[0].value, c) else 0
  }

  lemma BeganBefore(kind: Kind, l: Limits, stored: seq<Option<State>>, reqs: seq<Loaded>, base: nat, v: nat, c: Sort)
    requires History(kind, l, stored, reqs, base) && v < |stored| && stored[v].Some?
    ensures SpentBefore(stored, stored[v].value.id, c) <= Counter(Began(kind, l, stored, reqs, base, v), c)
  {
    OriginFacts(kind, l, stored, reqs, base, v);
  }

  /** So a process all of whose charges are in order stays within its budgets, to its end and beyond. */
  lemma {:induction false} BudgetsHold(kind: Kind, l: Limits, stored: seq<Option<State>>, reqs: seq<Loaded>, base: nat,
                                       p: nat, c: Sort, n: nat)
    requires History(kind, l, stored, reqs, base) && n <= |reqs|
    requires stored[0].Some? ==> WithinLimits(l, stored[0].value)
    requires forall i :: 0 <= i < n && ChargesAt(kind, l, stored, reqs, p, i) ==>
      InOrder(kind, l, stored, reqs, base, p, i)
    ensures SpentBefore(stored, p, c) + Spent(kind, l, stored, reqs, p, c, n) <= Budget(l, c)
  {
    hide InOrder, Charges, Step, Began;
    if n > 0 {
      BudgetsHold(kind, l, stored, reqs, base, p, c, n - 1);
      if ChargesAt(kind, l, stored, reqs, p, n - 1) {
        var q := reqs[n - 1];
        ExcessIff(kind, l, stored, reqs, base, p, n - 1);
        assert Excess(kind, l, stored, reqs, base, c, n - 1) == 0;
        ChargeHasRoom(kind, l, stored[q.from].value, q.r);
        BeganBefore(kind, l, stored, reqs, base, q.from, c);
      }
    }
  }

  lemma ChargeHasRoom(kind: Kind, l: Limits, s: State, r: Request)
    requires Charges(kind, l, s, r)
    ensures Remaining(l, s, SortOf(r)) >= 1 && forall c :: Remaining(l, s, c) >= 0
  {
  }

  /** A witness in which the process has ended: two wrong guesses at the same time, each the last one
      that is allowed. */
  lemma TwoLastGuesses(l: Limits, s: State, wrong: string)
    requires l.maxAttempts == 1 && s.failed == 0 && l.timeout >= 0.0 && CompareUserCode(wrong, s.code) == NoMatch
    ensures var guess := Guess(s.at, wrong, true, false);
      var stored, reqs := [Some(s), None, None], [Loaded(guess, 0, false), Loaded(guess, 0, false)];
      && History(LoginCode, l, stored, reqs, s.id + 1)
      && Spent(LoginCode, l, stored, reqs, s.id, Guesses, 2) == 2 > Budget(l, Guesses)
      && Excess(LoginCode, l, stored, reqs, s.id + 1, Guesses, 1) == 1
  {
    hide CompareUserCode;
    var guess := Guess(s.at, wrong, true, false);
    var stored, reqs := [Some(s), None, None], [Loaded(guess, 0, false), Loaded(guess, 0, false)];
    assert Step(LoginCode, l, stored, reqs, s.id + 1, 0) && Step(LoginCode, l, stored, reqs, s.id + 1, 1);
    assert ChargesAt(LoginCode, l, stored, reqs, s.id, 0) && ChargesAt(LoginCode, l, stored, reqs, s.id, 1);
    assert Spent(LoginCode, l, stored, reqs, s.id, Guesses, 1) == 1;
    assert Began(LoginCode, l, stored, reqs, s.id + 1, 0) == s;
  }

  /** A process started during the history began with nothing spent. */
  lemma BeganFresh(kind: Kind, l: Limits, stored: seq<Option<State>>, reqs: seq<Loaded>, base: nat, v: nat, c: Sort)
    requires History(kind, l, stored, reqs, base) && v < |stored| && stored[v].Some?
    requires Origin(kind, l, stored, reqs, base, v) > 0
    ensures Counter(Began(kind, l, stored, reqs, base, v), c) == 0
  {
    OriginStarts(kind, l, stored, reqs, base, v);
    var o := Origin(kind, l, stored, reqs, base, v);
    assert Step(kind, l, stored, reqs, base, o - 1);
  }

  lemma {:induction false} OriginStarts(kind: Kind, l: Limits, stored: seq<Option<State>>, reqs: seq<Loaded>, base: nat,
                                        v: nat)
    requires History(kind, l, stored, reqs, base) && v < |stored| && stored[v].Some?
    requires Origin(kind, l, stored, reqs, base, v) > 0
    ensures var o := Origin(kind, l, stored, reqs, base, v);
      reqs[o - 1].from < o && reqs[o - 1].r.Initiate?
        && Effect(kind, l, stored[reqs[o - 1].from], reqs[o - 1].r, base + o - 1).Store?
    decreases v
  {
    hide Effect;
    var q := reqs[v - 1];
    assert Step(kind, l, stored, reqs, base, v - 1);
    var w := Effect(kind, l, stored[q.from], q.r, base + v - 1);
    if w.Keep? {
      OriginStarts(kind, l, stored, reqs, base, if q.saves then q.from else v - 1);
    } else if !q.r.Initiate? {
      OriginStarts(kind, l, stored, reqs, base, q.from);
    }
  }

  /** A witness: two resends at the same time, where one is allowed, both go out. */
  lemma TwoResendsForOne(l: Limits, s: State, code: string)
    requires l.maxResends == 1 && s.resends == 0 && l.timeout >= 0.0 && s.hasUser
    ensures var r := Resend(s.at, code, Fine, false);
      var t := Some(FullyResent(LoginCode, s, code));
      && History(LoginCode, l, [Some(s), t, t], [Loaded(r, 0, false), Loaded(r, 0, false)], s.id + 1)
      && Spent(LoginCode, l, [Some(s), t, t], [Loaded(r, 0, false), Loaded(r, 0, false)], s.id, Resends, 2) == 2
      && 2 > Budget(l, Resends)
  {
    var r := Resend(s.at, code, Fine, false);
    var t := Some(FullyResent(LoginCode, s, code));
    var stored, reqs := [Some(s), t, t], [Loaded(r, 0, false), Loaded(r, 0, false)];
    assert Step(LoginCode, l, stored, reqs, s.id + 1, 0) && Step(LoginCode, l, stored, reqs, s.id + 1, 1);
    assert ChargesAt(LoginCode, l, stored, reqs, s.id, 0) && ChargesAt(LoginCode, l, stored, reqs, s.id, 1);
    assert Spent(LoginCode, l, stored, reqs, s.id, Resends, 1) == 1;
  }

  /** A witness that charges need not overlap each other: of two wrong guesses, where the second is
      the last one allowed, the first is wiped out by a request that asked for nothing but was saved
      with its old copy, and a third may follow. */
  lemma SavedCopyWipesCount(l: Limits, s: State, wrong: string)
    requires l.maxAttempts == 2 && s.failed == 0 && l.timeout >= 0.0 && CompareUserCode(wrong, s.code) == NoMatch
    ensures var guess := Guess(s.at, wrong, true, false);
      var once := Some(s.(failed := 1));
      var stored := [Some(s), once, Some(s), once];
      var reqs := [Loaded(guess, 0, false), Loaded(Complete(s.at), 0, true), Loaded(guess, 2, false)];
      && History(LoginCode, l, stored, reqs, s.id + 1)
      && Spent(LoginCode, l, stored, reqs, s.id, Guesses, 3) == 2 && Remaining(l, once.value, Guesses) == 1
      && 2 + 1 > Budget(l, Guesses) && !Kept(LoginCode, l, stored, reqs, s.id + 1, s.id, 3)
  {
    hide CompareUserCode;
    var guess := Guess(s.at, wrong, true, false);
    var once := Some(s.(failed := 1));
    var stored := [Some(s), once, Some(s), once];
    var reqs := [Loaded(guess, 0, false), Loaded(Complete(s.at), 0, true), Loaded(guess, 2, false)];
    assert Step(LoginCode, l, stored, reqs, s.id + 1, 0);
    assert Step(LoginCode, l, stored, reqs, s.id + 1, 1);
    assert Step(LoginCode, l, stored, reqs, s.id + 1, 2);
    assert ChargesAt(LoginCode, l, stored, reqs, s.id, 0) && !ChargesAt(LoginCode, l, stored, reqs, s.id, 1);
    assert ChargesAt(LoginCode, l, stored, reqs, s.id, 2);
    assert Spent(LoginCode, l, stored, reqs, s.id, Guesses, 1) == 1
      && Spent(LoginCode, l, stored, reqs, s.id, Guesses, 2) == 1;
    assert Parent(LoginCode, l, stored, reqs, s.id + 1, 3) == 2 && Parent(LoginCode, l, stored, reqs, s.id + 1, 2) == 0;
    assert Origin(LoginCode, l, stored, reqs, s.id + 1, 2) == 0;
  }
}
