/** The login stage pipeline: a resumable state machine whose state travels in the session. */
module LoginStages {
  import opened Options

  type Key = string
  type User = nat
  type Flags = set<string>
  type Data = map<Key, Flags>

  /** What `stage.handle()` comes to. `Abort` returns neither a response nor a go-ahead; `Raise` is
      an exception. Both leave the session alone, unless the session is saved for another reason
      and thereby picks up the login state, which it shares with the request (`leak`). */
  datatype Outcome =
    | Pass
    | Challenge(flags: Flags)
    | Reject
    | Abort(leak: bool, flags: Flags)
    | Raise(leak: bool, flags: Flags)

  /** The stages' decisions during one request, for a login; they may read the data of all stages. */
  type Stages = (nat, Key, Data) -> Outcome

  datatype Response = Challenged | Rejected | Aborted | Raised | LoggedIn | NoUser | NoStage

  /** What happened to which login. */
  datatype Event =
    | Passed(id: nat, key: Key)
    | Exited(id: nat, key: Key)
    | WasChallenged(id: nat, key: Key)
    | DidLogin(id: nat, user: User)

  datatype EmailVerification = NotVerified | Optional | Mandatory

  /** What a login carries along; `signalKwargs` stands for the serialized keyword arguments. */
  datatype Profile = Profile(
    email: Option<string>,
    phone: Option<string>,
    emailVerification: EmailVerification,
    signup: bool,
    redirectUrl: Option<string>,
    signalKwargs: Option<string>)

  /** A login as the session stores it. `id` tells one login from another. */
  datatype Stored = Stored(
    id: nat,
    user: Option<User>,
    profile: Profile,
    initiatedAt: real,
    current: Option<Key>,
    handled: set<Key>,
    data: Data)

  class Login {
    const id: nat
    const user: Option<User>
    const profile: Profile
    const initiatedAt: real
    var current: Option<Key>
    var handled: set<Key>
    var data: Data

    /** A login without a start time, or with a zero one, starts now. */
    constructor (id: nat, user: Option<User>, profile: Profile, initiatedAt: Option<real>, now: real,
                 current: Option<Key>, handled: set<Key>, data: Data)
      ensures Serialize() == Stored(id, user, profile, StartTime(initiatedAt, now), current, handled, data)
    {
      this.id, this.user, this.profile := id, user, profile;
      this.initiatedAt := StartTime(initiatedAt, now);
      this.current, this.handled, this.data := current, handled, data;
    }

    function Serialize(): Stored
      reads this
    {
      Stored(id, user, profile, initiatedAt, current, handled, data)
    }
  }

  function StartTime(initiatedAt: Option<real>, now: real): real {
    if initiatedAt.Some? && initiatedAt.value != 0.0 then initiatedAt.value else now
  }

  /** What a session entry may hold: all the keys of a login, all but some others, or no user key. */
  datatype Raw = Complete(stored: Stored) | Incomplete | NoUserKey

  /** `ValueError` is caught by the caller, `KeyError` is not. */
  datatype Loading = Loaded(login: Login) | ValueError | KeyError

  /** `Login.deserialize`: the user is looked up again, and first; only then a missing key is turned
      into a `ValueError`. */
  method Deserialize(raw: Raw, users: set<User>, now: real) returns (r: Loading)
    ensures r.KeyError? <==> raw.NoUserKey?
    ensures r.ValueError? <==> raw.Incomplete?
    ensures r.Loaded? ==> fresh(r.login) && r.login.Serialize() == Restored(raw.stored, users, now)
    ensures r.Loaded? ==>
      && r.login.Serialize() == raw.stored.(user := r.login.user, initiatedAt := r.login.initiatedAt)
      && (r.login.user.Some? <==> raw.stored.user.Some? && raw.stored.user.value in users)
      && (r.login.user.Some? ==> r.login.user == raw.stored.user)
      && r.login.initiatedAt == if raw.stored.initiatedAt != 0.0 then raw.stored.initiatedAt else now
  {
    match raw {
      case NoUserKey => r := KeyError;
      case Incomplete => r := ValueError;
      case Complete(s) =>
        var user := if s.user.Some? && s.user.value in users then s.user else None;
        var login := new Login(s.id, user, s.profile, Some(s.initiatedAt), now, s.current, s.handled, s.data);
        r := Loaded(login);
    }
  }

  function Restored(s: Stored, users: set<User>, now: real): Stored {
    s.(user := if s.user.Some? && s.user.value in users then s.user else None,
       initiatedAt := StartTime(Some(s.initiatedAt), now))
  }

  /** Storing and loading a login gives back the same login if and only if its user still exists
      and its start time is not the epoch itself, which reads as "not set". */
  lemma RoundTripIff(s: Stored, users: set<User>, now: real)
    ensures Restored(s, users, now) == s
      <==> (s.user.Some? ==> s.user.value in users) && (s.initiatedAt != 0.0 || now == 0.0)
  {
  }

  /** A user deleted between two requests: the login comes back without one. */
  lemma DeletedUserForgotten(profile: Profile, user: User, at: real, now: real)
    requires at != 0.0
    ensures var s := Stored(0, Some(user), profile, at, None, {}, map[]);
      Restored(s, {}, now) == s.(user := None) != s
  {
  }

  /** A login stamped with the epoch starts anew whenever it is loaded. */
  lemma EpochLoginRestarts(profile: Profile, now: real)
    requires now != 0.0
    ensures var s := Stored(0, None, profile, 0.0, None, {}, map[]);
      Restored(s, {}, now) == s.(initiatedAt := now) != s
  {
  }

  // ---------- The pipeline ----------

  ghost predicate Pipeline(keys: seq<Key>) {
    keys != [] && "current" !in keys && forall i, j :: 0 <= i < j < |keys| ==> keys[i] != keys[j]
  }

  ghost function KeySet(keys: seq<Key>): set<Key> {
    set k | k in keys
  }

  /** The stages of login `id` that were passed or exited, in order. */
  ghost function Done(journal: seq<Event>, id: nat): seq<Key> {
    if journal == [] then []
    else
      var e := journal[|journal| - 1];
      Done(journal[..|journal| - 1], id) + if (e.Passed? || e.Exited?) && e.id == id then [e.key] else []
  }

  ghost predicate LoggedInAlready(journal: seq<Event>, id: nat) {
    exists e :: e in journal && e.DidLogin? && e.id == id
  }

  /** Data is written only by a challenge, so every stage with data was exited or is the open one. */
  ghost predicate Answered(journal: seq<Event>, s: Stored, open: Option<Key>) {
    forall k :: k in s.data && s.data[k] != {} && Some(k) != open ==> Exited(s.id, k) in journal
  }

  /** A login of which exactly the first `n` stages are handled. */
  ghost predicate Progressed(keys: seq<Key>, journal: seq<Event>, s: Stored, n: nat) {
    && n <= |keys|
    && Done(journal, s.id) == keys[..n]
    && s.handled == KeySet(keys[..n])
    && !LoggedInAlready(journal, s.id)
  }

  /** The handled stages are a prefix of the pipeline and `current` is the first unhandled one. */
  ghost predicate Staged(keys: seq<Key>, journal: seq<Event>, s: Stored) {
    exists n :: 0 <= n < |keys| && StagedAt(keys, journal, s, n)
  }

  ghost predicate StagedAt(keys: seq<Key>, journal: seq<Event>, s: Stored, n: nat) {
    n < |keys| && Progressed(keys, journal, s, n) && s.current == Some(keys[n]) && Answered(journal, s, Some(keys[n]))
  }

  /** Nobody was logged in before every stage of that login was passed or exited, in order, and
      nobody twice by the same login. */
  ghost predicate Earned(keys: seq<Key>, journal: seq<Event>) {
    && (forall id :: Done(journal, id) <= keys)
    && forall p :: 0 <= p < |journal| && journal[p].DidLogin? ==>
         Done(journal[..p], journal[p].id) == keys && !LoggedInAlready(journal[..p], journal[p].id)
  }

  /** Stages that never let a login pass: none of them was passed by that login. */
  ghost predicate Unskipped(journal: seq<Event>, strict: iset<(nat, Key)>) {
    forall e :: e in journal && e.Passed? ==> (e.id, e.key) !in strict
  }

  /** A challenge that needs an answer elsewhere was made only after such an answer. */
  ghost predicate Offered(journal: seq<Event>, needs: map<Key, set<Key>>) {
    forall p {:trigger journal[p]} :: 0 <= p < |journal| && journal[p].WasChallenged? ==>
      Answers(journal[..p], journal[p], needs)
  }

  ghost predicate Answers(before: seq<Event>, e: Event, needs: map<Key, set<Key>>)
    requires e.WasChallenged?
  {
    e.key in needs ==> exists k :: k in needs[e.key] && Exited(e.id, k) in before
  }

  ghost predicate Known(journal: seq<Event>, nextId: nat) {
    forall e :: e in journal ==> e.id < nextId
  }

  /** A stored login was created when it says, and is at a proper stage. */
  ghost predicate SlotOk(keys: seq<Key>, journal: seq<Event>, s: Stored, created: map<nat, real>) {
    s.id in created && s.initiatedAt == created[s.id] && s.initiatedAt > 0.0 && Staged(keys, journal, s)
  }

  ghost predicate Good(keys: seq<Key>, journal: seq<Event>, slot: Option<Stored>, nextId: nat,
                       created: map<nat, real>) {
    && Earned(keys, journal) && Known(journal, nextId)
    && (forall id: nat :: id in created <==> id < nextId)
    && (slot.Some? ==> SlotOk(keys, journal, slot.value, created))
  }

  // ---------- Steps of the journal ----------

  lemma DoneAppend(journal: seq<Event>, e: Event, id: nat)
    ensures Done(journal + [e], id) == Done(journal, id) +
      if (e.Passed? || e.Exited?) && e.id == id then [e.key] else []
  {
    assert (journal + [e])[..|journal|] == journal;
  }

  lemma KeySetPrefix(keys: seq<Key>, n: nat)
    requires Pipeline(keys) && n <= |keys|
    ensures forall i :: 0 <= i < |keys| ==> (keys[i] in KeySet(keys[..n]) <==> i < n)
    ensures n < |keys| ==> KeySet(keys[..n + 1]) == KeySet(keys[..n]) + {keys[n]}
  {
    forall i | 0 <= i < |keys|
      ensures keys[i] in KeySet(keys[..n]) <==> i < n
    {
      if i < n {
        assert keys[..n][i] == keys[i];
      }
    }
    if n < |keys| {
      assert keys[..n + 1] == keys[..n] + [keys[n]];
    }
  }

  /** An event that is not a login keeps what was earned, if it continues the pipeline. */
  lemma EarnedAppend(keys: seq<Key>, journal: seq<Event>, e: Event)
    requires Earned(keys, journal)
    requires Done(journal + [e], e.id) <= keys
    requires e.DidLogin? ==> Done(journal, e.id) == keys && !LoggedInAlready(journal, e.id)
    ensures Earned(keys, journal + [e])
  {
    var j := journal + [e];
    forall id
      ensures Done(j, id) <= keys
    {
      DoneAppend(journal, e, id);
    }
    forall p | 0 <= p < |j| && j[p].DidLogin?
      ensures Done(j[..p], j[p].id) == keys && !LoggedInAlready(j[..p], j[p].id)
    {
      assert j[..p] == journal[..p] && (p < |journal| ==> j[p] == journal[p]);
      assert journal[..|journal|] == journal;
    }
  }

  lemma OfferedAppend(journal: seq<Event>, needs: map<Key, set<Key>>, e: Event)
    requires Offered(journal, needs) && (e.WasChallenged? ==> Answers(journal, e, needs))
    ensures Offered(journal + [e], needs)
  {
    var after := journal + [e];
    forall p {:trigger after[p]} | 0 <= p < |after| && after[p].WasChallenged?
      ensures Answers(after[..p], after[p], needs)
    {
      assert after[..p] == journal[..p] && journal[..|journal|] == journal;
      assert p < |journal| ==> after[p] == journal[p];
    }
  }

  /** Passing or exiting the first unhandled stage. */
  lemma Advance(keys: seq<Key>, journal: seq<Event>, s: Stored, n: nat, e: Event)
    requires Pipeline(keys) && Earned(keys, journal) && Progressed(keys, journal, s, n) && n < |keys|
    requires e == Exited(s.id, keys[n]) || e == Passed(s.id, keys[n])
    ensures Earned(keys, journal + [e])
    ensures Progressed(keys, journal + [e], s.(handled := s.handled + {keys[n]}), n + 1)
  {
    DoneAppend(journal, e, s.id);
    assert keys[..n + 1] == keys[..n] + [keys[n]];
    KeySetPrefix(keys, n);
    EarnedAppend(keys, journal, e);
  }

  /** Another login's events do not touch this one, nor does a challenge. */
  lemma OthersStay(keys: seq<Key>, journal: seq<Event>, s: Stored, e: Event)
    requires Staged(keys, journal, s) && (e.id != s.id || e.WasChallenged?)
    ensures Staged(keys, journal + [e], s)
  {
    var n :| 0 <= n < |keys| && StagedAt(keys, journal, s, n);
    DoneAppend(journal, e, s.id);
    assert StagedAt(keys, journal + [e], s, n);
  }

  // ---------- Enter and pending ----------

  /** `get_pending_stage`: the first unhandled stage. */
  function Pending(keys: seq<Key>, handled: set<Key>): (r: Option<Key>)
    ensures r.Some? ==> r.value in keys && r.value !in handled
    ensures r.None? ==> forall k :: k in keys ==> k in handled
  {
    if keys == [] then None
    else if keys[0] !in handled then Some(keys[0])
    else Pending(keys[1..], handled)
  }

  lemma {:induction false} PendingIs(keys: seq<Key>, handled: set<Key>, n: nat)
    requires n < |keys| && keys[n] !in handled && forall i :: 0 <= i < n ==> keys[i] in handled
    ensures Pending(keys, handled) == Some(keys[n])
  {
    if n > 0 {
      PendingIs(keys[1..], handled, n - 1);
    }
  }

  /** In every reachable session a stage can be entered if and only if it is the pending one. */
  lemma EnterIffPending(keys: seq<Key>, journal: seq<Event>, s: Stored, k: Key)
    requires Pipeline(keys) && Staged(keys, journal, s)
    ensures s.current == Some(k) && k in keys <==> Pending(keys, s.handled) == Some(k)
  {
    var n :| 0 <= n < |keys| && StagedAt(keys, journal, s, n);
    KeySetPrefix(keys, n);
    PendingIs(keys, s.handled, n);
  }

  // ---------- How many exits ----------

  function Exits(journal: seq<Event>, id: nat): nat {
    if journal == [] then 0
    else Exits(journal[..|journal| - 1], id)
         + if journal[|journal| - 1].Exited? && journal[|journal| - 1].id == id then 1 else 0
  }

  lemma {:induction false} ExitsAreDone(journal: seq<Event>, id: nat)
    ensures Exits(journal, id) <= |Done(journal, id)|
  {
    if journal != [] {
      ExitsAreDone(journal[..|journal| - 1], id);
    }
  }

  /** A login takes at most as many exits as there are stages. */
  lemma ExitsBounded(keys: seq<Key>, journal: seq<Event>, id: nat)
    requires Earned(keys, journal)
    ensures Exits(journal, id) <= |keys|
  {
    ExitsAreDone(journal, id);
    assert Done(journal, id) <= keys;
  }

  lemma {:induction false} ExitedIsDone(journal: seq<Event>, id: nat, key: Key)
    requires Exited(id, key) in journal
    ensures key in Done(journal, id)
  {
    var last := |journal| - 1;
    if journal[last] != Exited(id, key) {
      ExitedIsDone(journal[..last], id, key);
    }
  }

  /** Before a login is completed every stage of it was passed or exited, and it is completed once. */
  lemma EarnedMeans(keys: seq<Key>, journal: seq<Event>)
    requires Earned(keys, journal)
    ensures forall p, k :: 0 <= p < |journal| && journal[p].DidLogin? && k in keys ==>
      Passed(journal[p].id, k) in journal[..p] || Exited(journal[p].id, k) in journal[..p]
    ensures forall p, q :: 0 <= p < q < |journal| && journal[p].DidLogin? && journal[q].DidLogin? ==>
      journal[p].id != journal[q].id
  {
    forall p, k | 0 <= p < |journal| && journal[p].DidLogin? && k in keys
      ensures Passed(journal[p].id, k) in journal[..p] || Exited(journal[p].id, k) in journal[..p]
    {
      DoneIsPassedOrExited(journal[..p], journal[p].id, k);
    }
    forall p, q | 0 <= p < q < |journal| && journal[p].DidLogin? && journal[q].DidLogin?
      ensures journal[p].id != journal[q].id
    {
      assert journal[..q][p] == journal[p] && journal[p] in journal[..q];
    }
  }

  /** The stored login is at its first unhandled stage, and the stages before it are the handled ones. */
  lemma StagedMeans(keys: seq<Key>, journal: seq<Event>, s: Stored)
    requires Pipeline(keys) && Staged(keys, journal, s)
    ensures exists n :: 0 <= n < |keys| && s.current == Some(keys[n])
                        && forall i :: 0 <= i < |keys| ==> (keys[i] in s.handled <==> i < n)
  {
    var n :| 0 <= n < |keys| && StagedAt(keys, journal, s, n);
    KeySetPrefix(keys, n);
  }

  /** Whoever was logged in answered every stage that never lets that login pass. */
  lemma StrictStagesAnswered(keys: seq<Key>, journal: seq<Event>, strict: iset<(nat, Key)>, p: nat, k: Key)
    requires Earned(keys, journal) && Unskipped(journal, strict)
    requires p < |journal| && journal[p].DidLogin? && k in keys && (journal[p].id, k) in strict
    ensures Exited(journal[p].id, k) in journal[..p]
  {
    assert k in Done(journal[..p], journal[p].id);
    DoneIsPassedOrExited(journal[..p], journal[p].id, k);
  }

  lemma {:induction false} DoneIsPassedOrExited(journal: seq<Event>, id: nat, k: Key)
    requires k in Done(journal, id)
    ensures Passed(id, k) in journal || Exited(id, k) in journal
  {
    var last := |journal| - 1;
    if k in Done(journal[..last], id) {
      DoneIsPassedOrExited(journal[..last], id, k);
    } else {
      assert journal[last] in journal;
    }
  }
}
