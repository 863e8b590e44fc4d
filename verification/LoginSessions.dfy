/** Requests against the stashed login: starting, entering, exiting, aborting and resuming it. */
module LoginSessions {
  import opened Options
  import opened LoginStages

  const LOGIN_BY_CODE: Key := "login_by_code"

  /** The first stage from `n` on that does not simply pass. */
  ghost function Stop(keys: seq<Key>, n: nat, stages: Stages, id: nat, data: Data): (m: nat)
    requires n <= |keys|
    ensures n <= m <= |keys|
    ensures forall i :: n <= i < m ==> stages(id, keys[i], data).Pass?
    ensures m < |keys| ==> !stages(id, keys[m], data).Pass?
    decreases |keys| - n
  {
    if n < |keys| && stages(id, keys[n], data).Pass? then Stop(keys, n + 1, stages, id, data) else n
  }

  /** Stages that `strict` lists for a login do not let it pass, and a stage that `needs` others
      challenges only when one of them has data. */
  ghost predicate Respects(stages: Stages, id: nat, strict: iset<(nat, Key)>, needs: map<Key, set<Key>>) {
    && (forall k, data :: (id, k) in strict ==> !stages(id, k, data).Pass?)
    && (forall k, data :: k in needs && stages(id, k, data).Challenge? ==>
         exists d :: d in needs[k] && d in data && data[d] != {})
  }

  /** The slot, unless it holds this very login. */
  ghost function Others(slot: Option<Stored>, id: nat): Option<Stored> {
    if slot.Some? && slot.value.id == id then None else slot
  }

  class LoginSession {
    const keys: seq<Key>
    const timeout: real
    /** Which stages never let which logins pass; empty when nothing is known of the stages. */
    ghost const strict: iset<(nat, Key)>
    /** Which stages challenge only on data of others; empty when nothing is known of them. */
    ghost const needs: map<Key, set<Key>>
    var slot: Option<Stored>
    var authenticated: bool
    var nextId: nat
    ghost var journal: seq<Event>
    ghost var created: map<nat, real>

    ghost predicate Valid()
      reads this
    {
      Pipeline(keys) && Sound(journal, slot)
    }

    ghost predicate Sound(journal: seq<Event>, slot: Option<Stored>)
      reads this
    {
      Good(keys, journal, slot, nextId, created) && Unskipped(journal, strict) && Offered(journal, needs)
    }

    constructor (keys: seq<Key>, timeout: real, ghost strict: iset<(nat, Key)>, ghost needs: map<Key, set<Key>>)
      requires Pipeline(keys)
      ensures Valid() && slot == None && this.keys == keys && this.timeout == timeout
      ensures this.strict == strict && this.needs == needs
    {
      this.keys, this.timeout, this.strict, this.needs := keys, timeout, strict, needs;
      slot, authenticated, nextId := None, false, 0;
      journal, created := [], map[];
      new;
      NothingDone(keys);
    }

    static lemma NothingDone(keys: seq<Key>)
      ensures Good(keys, [], None, 0, map[])
    {
    }

    /** A login that this request works on: its first `n` stages are handled, its challenges met. */
    ghost predicate Live(login: Login, n: nat)
      reads this, login
    {
      && Pipeline(keys) && Sound(journal, Others(slot, login.id))
      && Progressed(keys, journal, login.Serialize(), n) && Answered(journal, login.Serialize(), None)
      && login.id in created && login.initiatedAt == created[login.id] && login.initiatedAt > 0.0
    }

    method SetCurrent(login: Login, key: Key, ghost n: nat)
      requires Live(login, n)
      modifies login`current
      ensures Live(login, n) && login.current == Some(key)
    {
      login.current := Some(key);
    }

    /** `set_handled`, on the first unhandled stage. */
    method SetHandled(login: Login, key: Key, ghost n: nat, ghost e: Event)
      requires Live(login, n) && n < |keys| && key == keys[n]
      requires (e == Passed(login.id, key) && (login.id, key) !in strict) || e == Exited(login.id, key)
      modifies this`journal, login`handled
      ensures journal == old(journal) + [e] && login.handled == old(login.handled) + {key}
      ensures Live(login, n + 1)
    {
      Advance(keys, journal, login.Serialize(), n, e);
      if Others(slot, login.id).Some? {
        OthersStay(keys, journal, slot.value, e);
      }
      OfferedAppend(journal, needs, e);
      login.handled := login.handled + {key};
      journal := journal + [e];
    }

    /** `stash_login`, with some data written to the stage that is now open. */
    method StashLogin(login: Login, flags: Flags, ghost n: nat)
      requires Live(login, n) && n < |keys| && login.current == Some(keys[n])
      modifies this`slot, login`data
      ensures Valid() && slot == Some(login.Serialize())
      ensures login.data == old(login.data)[keys[n] := flags]
    {
      login.data := login.data[login.current.value := flags];
      assert StagedAt(keys, journal, login.Serialize(), n);
      slot := Some(login.Serialize());
    }

    method ClearLogin()
      modifies this`slot
      ensures slot == None
    {
      slot := None;
    }

    /** `LoginStageController.handle`: runs the unhandled stages until one does not pass. `base` is
        the journal as the stored session knows it; what this request did is lost with an
        exception unless the session is saved anyway. */
    method Handle(login: Login, stages: Stages, ghost n: nat, ghost base: seq<Event>) returns (r: Option<Response>)
      requires Live(login, n) && Sound(base, slot) && Respects(stages, login.id, strict, needs)
      modifies this`slot, this`journal, login
      ensures Valid()
      ensures var m := Stop(keys, n, stages, login.id, old(login.data));
        if m == |keys| then
          && r == None && slot == None
          && login.Serialize().(current := None) == old(login.Serialize()).(current := None, handled := KeySet(keys))
          && Done(journal, login.id) == keys && !LoggedInAlready(journal, login.id)
        else
          match stages(login.id, keys[m], old(login.data))
          case Challenge(flags) =>
            r == Some(Challenged) && slot == Some(old(login.Serialize()).(
              current := Some(keys[m]), handled := KeySet(keys[..m]), data := old(login.data)[keys[m] := flags]))
            && WasChallenged(login.id, keys[m]) in journal
          case Reject => r == Some(Rejected) && slot == None
          case Abort(leak, _) => r == Some(Aborted) && (!leak ==> slot == old(slot) && journal == base)
          case Raise(leak, _) => r == Some(Raised) && (!leak ==> slot == old(slot) && journal == base)
    {
      hide Good, Pipeline, Progressed, Answered, Stop, Unskipped;
      HandledPrefix(login, n);
      StopStep(keys, n, stages, login.id, login.data);
      for i := 0 to |keys|
        invariant var k := if i < n then n else i;
          Live(login, k)
            && Stop(keys, k, stages, login.id, login.data) == Stop(keys, n, stages, login.id, old(login.data))
        invariant login.data == old(login.data) && slot == old(slot)
      {
        var key := keys[i];
        HandledPrefix(login, if i < n then n else i);
        if key in login.handled {
          continue;
        }
        StopStep(keys, i, stages, login.id, login.data);
        SetCurrent(login, key, i);
        match stages(login.id, key, login.data) {
          case Pass => SetHandled(login, key, i, Passed(login.id, key));
          case Challenge(flags) =>
            NoteChallenge(login, key, i, stages);
            StashLogin(login, flags, i);
            return Some(Challenged);
          case Reject =>
            DropSlot(login, i);
            return Some(Rejected);
          case Abort(leak, flags) =>
            Fail(login, leak, flags, i, base);
            return Some(Aborted);
          case Raise(leak, flags) =>
            Fail(login, leak, flags, i, base);
            return Some(Raised);
        }
      }
      DropSlot(login, |keys|);
      r := None;
    }

    ghost method NoteChallenge(login: Login, key: Key, n: nat, stages: Stages)
      requires Live(login, n) && n < |keys| && login.current == Some(key) && key == keys[n]
      requires Respects(stages, login.id, strict, needs) && stages(login.id, key, login.data).Challenge?
      modifies this`journal
      ensures Live(login, n) && journal == old(journal) + [WasChallenged(login.id, key)]
    {
      hide Earned, Known, Unskipped, Offered, Pipeline, Staged, Done, LoggedInAlready;
      var e := WasChallenged(login.id, key);
      assert Answers(journal, e, needs);
      ChallengeKeeps(keys, journal, Others(slot, login.id), nextId, created, strict, needs, e);
      ProgressStays(keys, journal, login.Serialize(), n, e);
      journal := journal + [e];
    }

    lemma HandledPrefix(login: Login, n: nat)
      requires Live(login, n)
      ensures n <= |keys| && login.handled == KeySet(keys[..n])
      ensures forall i :: 0 <= i < |keys| ==> (keys[i] in login.handled <==> i < n)
    {
      KeySetPrefix(keys, n);
    }

    method DropSlot(login: Login, ghost n: nat)
      requires Live(login, n)
      modifies this`slot
      ensures Valid() && slot == None
      ensures n == |keys| ==>
        Done(journal, login.id) == keys && !LoggedInAlready(journal, login.id) && login.handled == KeySet(keys)
    {
      assert keys[..|keys|] == keys;
      ClearLogin();
    }

    /** The request dies: either everything it did is lost, or the session is saved regardless. */
    method Fail(login: Login, leak: bool, flags: Flags, ghost n: nat, ghost base: seq<Event>)
      requires Live(login, n) && n < |keys| && login.current == Some(keys[n]) && Sound(base, slot)
      modifies this`slot, this`journal, login`data
      ensures Valid() && (!leak ==> slot == old(slot) && journal == base)
    {
      if leak && slot.Some? && slot.value.id == login.id {
        StashLogin(login, flags, n);
      } else {
        journal := base;
      }
    }

    // ---------- Requests ----------

    /** `resume_login`. When the last stage is done the user is logged in, unless there is none:
        then the request fails and nothing it did is kept. */
    method Resume(login: Login, stages: Stages, ghost n: nat, ghost base: seq<Event>) returns (r: Response)
      requires Live(login, n) && Sound(base, slot) && Respects(stages, login.id, strict, needs)
      modifies this`slot, this`journal, this`authenticated, login
      ensures Valid() && (old(authenticated) ==> authenticated)
      ensures var m := Stop(keys, n, stages, login.id, old(login.data));
        && (r == LoggedIn <==> m == |keys| && login.user.Some?)
        && (r == NoUser <==> m == |keys| && login.user.None?)
        && (r == Challenged <==> m < |keys| && stages(login.id, keys[m], old(login.data)).Challenge?)
        && (r == Challenged ==>
              && WasChallenged(login.id, keys[m]) in journal
              && slot == Some(old(login.Serialize()).(current := Some(keys[m]), handled := KeySet(keys[..m]),
                   data := old(login.data)[keys[m] := stages(login.id, keys[m], old(login.data)).flags])))
        && (r == Rejected ==> slot == None)
      ensures r == LoggedIn ==> slot == None && authenticated && EndsWithLogin(journal, login.id)
      ensures r != NoStage
      ensures r == NoUser ==> slot == old(slot) && journal == base
      ensures authenticated == (old(authenticated) || r == LoggedIn)
    {
      hide Progressed, Answered, Earned, Known, Unskipped, Offered, Staged, Done, Pipeline;
      var before := slot;
      var stop := Handle(login, stages, n, base);
      if stop.Some? {
        return stop.value;
      }
      if login.user.None? {
        slot, journal := before, base;
        return NoUser;
      }
      LoggedInNow(login.id, login.user.value);
      journal := journal + [DidLogin(login.id, login.user.value)];
      authenticated := true;
      r := LoggedIn;
    }

    lemma LoggedInNow(id: nat, user: User)
      requires Valid() && slot == None && id in created
      requires Done(journal, id) == keys && !LoggedInAlready(journal, id)
      ensures Sound(journal + [DidLogin(id, user)], None)
    {
      var e := DidLogin(id, user);
      DoneAppend(journal, e, id);
      EarnedAppend(keys, journal, e);
      OfferedAppend(journal, needs, e);
    }

    /** `perform_login` with a login made just now; `blocked` when the pre-login hook responds. */
    method PerformLogin(user: Option<User>, profile: Profile, now: real, stages: Stages, blocked: bool)
      returns (r: Response)
      requires Valid() && now > 0.0 && Respects(stages, nextId, strict, needs)
      modifies this`slot, this`journal, this`authenticated, this`nextId, this`created
      ensures Valid() && (old(authenticated) ==> authenticated)
      ensures !(user.Some? && blocked) ==> var m := Stop(keys, 0, stages, old(nextId), map[]);
        && (r == LoggedIn <==> user.Some? && m == |keys|)
        && (r == NoUser <==> user.None? && m == |keys|)
        && (r == LoggedIn ==> slot == None && EndsWithLogin(journal, old(nextId)))
        && (r == Challenged <==> m < |keys| && stages(old(nextId), keys[m], map[]).Challenge?)
        && (r == Challenged ==>
              && WasChallenged(old(nextId), keys[m]) in journal
              && slot == Some(Stored(old(nextId), user, profile, now, Some(keys[m]), KeySet(keys[..m]),
                   map[keys[m] := stages(old(nextId), keys[m], map[]).flags])))
      ensures user.Some? && blocked ==> r == Rejected && slot == old(slot) && journal == old(journal)
    {
      var login := new Login(nextId, user, profile, None, now, None, {}, map[]);
      Fresh(login.Serialize(), now);
      created, nextId := created[nextId := now], nextId + 1;
      if user.Some? && blocked {
        return Rejected;
      }
      assert Live(login, 0);
      r := Resume(login, stages, 0, journal);
    }

    /** A login made now is unknown to the journal. */
    lemma Fresh(s: Stored, now: real)
      requires Valid() && s.id == nextId && s.handled == {}
      ensures Good(keys, journal, slot, nextId + 1, created[nextId := now])
      ensures Progressed(keys, journal, s, 0) && (forall o :: slot == Some(o) ==> o.id != s.id)
      ensures (forall k :: k in s.data && s.data[k] != {} ==> Some(k) == s.current) ==> Answered(journal, s, s.current)
    {
      Unknown(journal, nextId, nextId);
      assert KeySet(keys[..0]) == {};
    }

    /** A code asked for by the user: a login is stashed that is at the login-by-code stage, unless
        the code cannot be sent. */
    method RequestCode(user: Option<User>, profile: Profile, now: real, flags: Flags, fails: bool)
      requires Valid() && now > 0.0 && keys[0] == LOGIN_BY_CODE
      modifies this`slot, this`nextId, this`created
      ensures Valid()
      ensures slot == if fails then old(slot) else
        Some(Stored(old(nextId), user, profile, now, Some(LOGIN_BY_CODE), {}, map[LOGIN_BY_CODE := flags]))
    {
      var login := new Login(nextId, user, profile, None, now, Some(LOGIN_BY_CODE), {}, map[LOGIN_BY_CODE := flags]);
      Fresh(login.Serialize(), now);
      created, nextId := created[nextId := now], nextId + 1;
      if fails {
        return;
      }
      assert StagedAt(keys, journal, login.Serialize(), 0);
      slot := Some(login.Serialize());
    }

    /** The stored login is too old to be used. */
    predicate Stale(now: real)
      reads this
    {
      slot.Some? && now - slot.value.initiatedAt > timeout
    }

    /** `unstash_login`. A stale login is dropped even by a peek. */
    method UnstashLogin(peek: bool, now: real, users: set<User>) returns (login: Login?)
      requires Valid()
      modifies this`slot
      ensures Valid() && slot == if peek && login != null then old(slot) else None
      ensures login != null <==> old(slot).Some? && now - old(slot).value.initiatedAt <= timeout
      ensures login != null ==>
        && fresh(login) && login.Serialize() == Restored(old(slot).value, users, now)
        && login.Serialize() == old(slot).value.(user := login.user)
        && login.id in created && now - created[login.id] <= timeout
    {
      if slot.None? {
        return null;
      }
      var loading := Deserialize(Complete(slot.value), users, now);
      login := loading.login;
      var stale := now - login.initiatedAt > timeout;
      if !peek || stale {
        ClearLogin();
      }
      if stale {
        login := null;
      }
    }

    /** `LoginStageController.enter`: a stage is entered if and only if it is the pending one, and
        never later than `timeout` after the login was created. */
    method Enter(k: Key, now: real, users: set<User>) returns (login: Login?)
      requires Valid()
      modifies this`slot
      ensures Valid() && slot == if old(Stale(now)) then None else old(slot)
      ensures login != null <==>
        && old(slot).Some? && now - old(slot).value.initiatedAt <= timeout
        && Pending(keys, old(slot).value.handled) == Some(k)
      ensures login != null ==>
        && fresh(login) && login.Serialize() == old(slot).value.(user := login.user) && login.current == Some(k)
        && login.user == Restored(old(slot).value, users, now).user
        && login.id in created && now - created[login.id] <= timeout
    {
      hide Good, Earned, Known, Staged, Progressed, Answered;
      if slot.Some? {
        SlotStaged();
        EnterIffPending(keys, journal, slot.value, k);
      }
      login := UnstashLogin(true, now, users);
      if login != null && !(login.current == Some(k) && k in keys) {
        login := null;
      }
    }

    lemma SlotStaged()
      requires Valid() && slot.Some?
      ensures Staged(keys, journal, slot.value)
    {
    }

    /** `stagekit.get_pending_stage`: only for somebody who is not logged in yet. */
    method GetPending(now: real, users: set<User>) returns (r: Option<Key>)
      requires Valid()
      modifies this`slot
      ensures Valid()
      ensures r ==
        if old(slot).Some? && !old(Stale(now)) && !authenticated then Pending(keys, old(slot).value.handled) else None
      ensures slot == if !authenticated && old(Stale(now)) then None else old(slot)
    {
      r := None;
      if !authenticated {
        var login := UnstashLogin(true, now, users);
        if login != null {
          r := Pending(keys, login.handled);
        }
      }
    }

    /** `LoginStage.exit`, of the stage that was entered: the stages after it are run. */
    method Exit(k: Key, now: real, users: set<User>, stages: Stages) returns (r: Response)
      requires Valid() && (slot.Some? ==> Respects(stages, slot.value.id, strict, needs))
      modifies this`slot, this`journal, this`authenticated
      ensures Valid() && (old(authenticated) ==> authenticated)
      ensures r == NoStage <==>
        old(slot).None? || old(Stale(now)) || Pending(keys, old(slot).value.handled) != Some(k)
      ensures r == NoStage ==> journal == old(journal) && slot == if old(Stale(now)) then None else old(slot)
      ensures r == LoggedIn ==> slot == None && old(slot).Some? && EndsWithLogin(journal, old(slot).value.id)
      ensures forall n :: 0 <= n < |keys| && keys[n] == k && r != NoStage ==>
        (r == LoggedIn <==> Stop(keys, n + 1, stages, old(slot).value.id, old(slot).value.data) == |keys|
                            && Restored(old(slot).value, users, now).user.Some?)
      ensures r == Challenged ==>
        && old(slot).Some? && slot.Some? && slot.value.id == old(slot).value.id
        && old(slot).value.handled < slot.value.handled
        && slot.value.current.Some? && WasChallenged(slot.value.id, slot.value.current.value) in journal
    {
      hide Good, Earned, Known, Progressed, Answered;
      var login := Enter(k, now, users);
      if login == null {
        return NoStage;
      }
      ghost var base := journal;
      ghost var n := ExitStage(login, k);
      ghost var handled := login.handled;
      r := Resume(login, stages, n, base);
      if r == Challenged {
        StopBeyond(n, Stop(keys, n, stages, login.id, login.data));
      }
    }

    /** The handled part only grows. */
    lemma StopBeyond(n: nat, m: nat)
      requires n <= m <= |keys|
      ensures KeySet(keys[..n]) <= KeySet(keys[..m])
    {
      forall k | k in KeySet(keys[..n])
        ensures k in KeySet(keys[..m])
      {
        var i :| 0 <= i < n && keys[..n][i] == k;
        assert keys[..m][i] == k;
      }
    }

    /** `set_handled` on the entered stage: what was asked of it is thereby answered. */
    method ExitStage(login: Login, k: Key) returns (ghost n: nat)
      requires Valid() && slot.Some? && login.Serialize() == slot.value.(user := login.user) && login.current == Some(k)
      modifies this`journal, login`handled
      ensures journal == old(journal) + [Exited(login.id, k)]
      ensures Live(login, n) && login.handled == KeySet(keys[..n]) && old(login.handled) < login.handled
      ensures n > 0 && keys[n - 1] == k
    {
      ghost var s := slot.value;
      n :| 0 <= n < |keys| && StagedAt(keys, journal, s, n);
      assert Progressed(keys, journal, login.Serialize(), n);
      KeySetPrefix(keys, n);
      Advance(keys, journal, login.Serialize(), n, Exited(login.id, k));
      OfferedAppend(journal, needs, Exited(login.id, k));
      login.handled := login.handled + {k};
      journal := journal + [Exited(login.id, k)];
      n := n + 1;
    }

    /** `LoginStage.abort`, logging out, or a code process giving up: the login is gone. */
    method AbortStage()
      requires Valid()
      modifies this`slot
      ensures Valid() && slot == None
    {
      ClearLogin();
    }

    /** A code process stores what it counted in the data of the entered stage. */
    method Persist(k: Key, now: real, users: set<User>, flags: Flags) returns (r: Option<Response>)
      requires Valid()
      modifies this`slot
      ensures Valid()
      ensures r == None <==> old(slot).Some? && !old(Stale(now)) && Pending(keys, old(slot).value.handled) == Some(k)
      ensures r == None ==>
        && slot.Some?
        && slot.value == old(slot).value.(user := slot.value.user, data := old(slot).value.data[k := flags])
    {
      hide Earned, Known, Unskipped, Offered, Pending, Staged;
      var login := Enter(k, now, users);
      if login == null {
        return Some(NoStage);
      }
      DataKept(keys, journal, slot.value, login.user, k, flags);
      login.data := login.data[k := flags];
      slot := Some(login.Serialize());
      r := None;
    }

    /** Any run of requests, each with its own clock reading and its own decisions. */
    method Serve(requests: seq<Request>)
      requires Valid() && keys[0] == LOGIN_BY_CODE
      requires forall q :: q in requests && (q.Start? || q.AskCode?) ==> q.now > 0.0
      requires forall q, id :: q in requests && (q.Start? || q.Leave?) ==> Respects(q.stages, id, strict, needs)
      modifies this
      ensures Valid()
      ensures forall id :: Done(journal, id) <= keys && Exits(journal, id) <= |keys|
      ensures forall p, k :: 0 <= p < |journal| && journal[p].DidLogin? && k in keys && (journal[p].id, k) in strict ==>
        Exited(journal[p].id, k) in journal[..p]
      ensures Offered(journal, needs)
      ensures forall p, k :: 0 <= p < |journal| && journal[p].DidLogin? && k in keys ==>
        Passed(journal[p].id, k) in journal[..p] || Exited(journal[p].id, k) in journal[..p]
      ensures forall p, q :: 0 <= p < q < |journal| && journal[p].DidLogin? && journal[q].DidLogin? ==>
        journal[p].id != journal[q].id
      ensures slot.Some? ==> exists n :: 0 <= n < |keys| && slot.value.current == Some(keys[n])
                                         && forall i :: 0 <= i < |keys| ==> (keys[i] in slot.value.handled <==> i < n)
    {
      for i := 0 to |requests|
        invariant Valid()
      {
        match requests[i] {
          case Start(user, profile, now, stages, blocked) => var _ := PerformLogin(user, profile, now, stages, blocked);
          case AskCode(user, profile, now, flags, fails) => RequestCode(user, profile, now, flags, fails);
          case Leave(k, now, users, stages) => var _ := Exit(k, now, users, stages);
          case Count(k, now, users, flags) => var _ := Persist(k, now, users, flags);
          case Look(now, users) => var _ := GetPending(now, users);
          case GiveUp => AbortStage();
        }
      }
      EarnedMeans(keys, journal);
      if slot.Some? {
        StagedMeans(keys, journal, slot.value);
      }
      forall id
        ensures Done(journal, id) <= keys && Exits(journal, id) <= |keys|
      {
        ExitsBounded(keys, journal, id);
      }
      forall p, k | 0 <= p < |journal| && journal[p].DidLogin? && k in keys && (journal[p].id, k) in strict
        ensures Exited(journal[p].id, k) in journal[..p]
      {
        StrictStagesAnswered(keys, journal, strict, p, k);
      }
    }
  }

  datatype Request =
    | Start(user: Option<User>, profile: Profile, now: real, stages: Stages, blocked: bool)
    | AskCode(user: Option<User>, profile: Profile, now: real, flags: Flags, fails: bool)
    | Leave(k: Key, now: real, users: set<User>, stages: Stages)
    | Count(k: Key, now: real, users: set<User>, flags: Flags)
    | Look(now: real, users: set<User>)
    | GiveUp

  ghost predicate EndsWithLogin(journal: seq<Event>, id: nat) {
    journal != [] && journal[|journal| - 1].DidLogin? && journal[|journal| - 1].id == id
  }

  lemma {:induction false} Unknown(journal: seq<Event>, nextId: nat, id: nat)
    requires Known(journal, nextId) && id >= nextId
    ensures Done(journal, id) == [] && !LoggedInAlready(journal, id)
  {
    if journal != [] {
      var last := |journal| - 1;
      assert journal[last] in journal;
      assert Known(journal[..last], nextId);
      Unknown(journal[..last], nextId, id);
    }
  }

  lemma ChallengeKeeps(keys: seq<Key>, journal: seq<Event>, slot: Option<Stored>, nextId: nat, created: map<nat, real>,
                       strict: iset<(nat, Key)>, needs: map<Key, set<Key>>, e: Event)
    requires Good(keys, journal, slot, nextId, created) && Unskipped(journal, strict) && Offered(journal, needs)
    requires e.WasChallenged? && e.id < nextId && Answers(journal, e, needs)
    ensures Good(keys, journal + [e], slot, nextId, created)
    ensures Unskipped(journal + [e], strict) && Offered(journal + [e], needs)
  {
    hide Earned, Offered, Staged, Answers;
    EarnedKeeps(keys, journal, e);
    OfferedAppend(journal, needs, e);
    if slot.Some? {
      OthersStay(keys, journal, slot.value, e);
    }
  }

  lemma EarnedKeeps(keys: seq<Key>, journal: seq<Event>, e: Event)
    requires Earned(keys, journal) && e.WasChallenged?
    ensures Earned(keys, journal + [e])
  {
    DoneAppend(journal, e, e.id);
    EarnedAppend(keys, journal, e);
  }

  lemma ProgressStays(keys: seq<Key>, journal: seq<Event>, s: Stored, n: nat, e: Event)
    requires Progressed(keys, journal, s, n) && Answered(journal, s, None) && e.WasChallenged?
    ensures Progressed(keys, journal + [e], s, n) && Answered(journal + [e], s, None)
  {
    DoneAppend(journal, e, s.id);
  }

  /** The open stage may write its own data. */
  lemma DataKept(keys: seq<Key>, journal: seq<Event>, s: Stored, user: Option<User>, k: Key, flags: Flags)
    requires Staged(keys, journal, s) && s.current == Some(k)
    ensures Staged(keys, journal, s.(user := user, data := s.data[k := flags]))
  {
    var n :| 0 <= n < |keys| && StagedAt(keys, journal, s, n);
    assert StagedAt(keys, journal, s.(user := user, data := s.data[k := flags]), n);
  }

  lemma StopStep(keys: seq<Key>, n: nat, stages: Stages, id: nat, data: Data)
    requires n <= |keys|
    ensures Stop(keys, n, stages, id, data)
      == if n < |keys| && stages(id, keys[n], data).Pass? then Stop(keys, n + 1, stages, id, data) else n
  {
  }
}
