/** Verifying a code over several requests: every request loads the stored state, works on it, and
    stores it again. */
module CodeVerification {
  import opened Options
  import opened UserCode
  import opened CodeLogs

  /** How a send fails. `Early` comes before a text message has its code (the rate limit refuses it),
      or before a changed address is counted; `Late` is the sending itself. */
  datatype Fault = Fine | Early | Late

  /** `Failed` is an exception: a failing send, or code meant for a user there is none of. */
  datatype Reply = NoProcess | Refused | Failed | Wrong | Exhausted | Accepting | Done

  predicate Expired(l: Limits, s: State, now: real) {
    now - s.at > l.timeout
  }

  predicate CanResend(kind: Kind, l: Limits, s: State) {
    (kind.LoginCode? || kind.EmailCode? || kind.SignupPhone?) && s.resends < l.maxResends
  }

  predicate CanChange(kind: Kind, l: Limits, s: State, loggedInBefore: bool) {
    (kind.EmailCode? || kind.SignupPhone?) && s.changes < l.maxChanges && s.hasUser && !loggedInBefore
  }

  /** The code as generated; without a user some processes have none. */
  function Generated(kind: Kind, hasUser: bool, code: string): string {
    if hasUser || kind.EmailCode? then code else ""
  }

  /** What is left of a process after a wrong guess. */
  function Recorded(l: Limits, s: State): Option<State> {
    if s.failed + 1 >= l.maxAttempts then None else Some(s.(failed := s.failed + 1))
  }

  /** Sending a code again: e-mail first makes a new code and counts last, a text message is counted
      first and its code is made last. So this is what an exception midway leaves behind. */
  function HalfResent(kind: Kind, s: State, code: string, fault: Fault): State {
    if !kind.SignupPhone? then s.(code := code)
    else s.(resends := s.resends + 1, code := if fault.Late? then Generated(kind, s.hasUser, code) else s.code)
  }

  function FullyResent(kind: Kind, s: State, code: string): State {
    s.(resends := s.resends + 1, code := if kind.SignupPhone? then Generated(kind, s.hasUser, code) else code)
  }

  /** Changing where the code goes: e-mail makes its code first and counts after the address was
      added, a text message counts first and makes its code after the rate limit was asked. */
  function HalfChanged(kind: Kind, s: State, target: string, taken: bool, code: string, fault: Fault): State {
    if kind.EmailCode? && fault.Early? then s.(taken := taken, code := code)
    else s.(taken := taken, target := target, changes := s.changes + 1,
            code := if kind.EmailCode? || fault.Late? then code else s.code)
  }

  function FullyChanged(kind: Kind, s: State, target: string, taken: bool, code: string): State {
    s.(taken := taken, target := target, changes := s.changes + 1, code := code)
  }

  /** Whether a matched code can still be refused because somebody else owns the address now. */
  predicate ChecksOwner(kind: Kind) {
    kind.EmailCode? || kind.ChangePhone? || kind.SignupPhone?
  }

  /** Whether a guess that came to a comparison is rejected. */
  predicate Rejects(kind: Kind, s: State, text: string, free: bool) {
    var c := CompareUserCode(text, s.code);
    c == NoMatch || (c == Match && ChecksOwner(kind) && !free)
  }

  /** Whether it is accepted. Everything else is an exception. */
  predicate Accepts(kind: Kind, s: State, text: string, free: bool) {
    && CompareUserCode(text, s.code) == Match && (ChecksOwner(kind) ==> free)
    && s.hasUser && !(kind.EmailCode? && s.taken)
  }

  /** What an accepted guess leaves: a password reset waits for the new password, and a login that
      could not be stored leaves the old one (`kept`). */
  function AfterAccept(kind: Kind, s: State, kept: bool): Option<State> {
    if kind.PasswordReset? then Some(s.(confirmed := true))
    else if KeepsLogin(kind) && kept then Some(s)
    else None
  }

  datatype Request =
    | Initiate(now: real, target: string, hasUser: bool, code: string, fails: bool)
    | Guess(now: real, text: string, free: bool, kept: bool)
    | Resend(now: real, code: string, fault: Fault, leak: bool)
    | Change(now: real, target: string, taken: bool, code: string, loggedInBefore: bool, fault: Fault, leak: bool)
    | Complete(now: real)
    | GiveUp

  /** What a request does to the stored state: nothing, or it stores its copy, or takes the state out. */
  datatype Write = Keep | Store(state: State) | Drop

  function AsWrite(seen: State, after: Option<State>): Write {
    if after.None? then Drop else if after.value == seen then Keep else Store(after.value)
  }

  /** The effect of a request on the copy it loaded; `id` names the process that it may start. */
  function Effect(kind: Kind, l: Limits, seen: Option<State>, r: Request, id: nat): (w: Write)
    ensures w.Store? && !r.Initiate? ==> seen.Some? && w.state.id == seen.value.id && w.state.at == seen.value.at
  {
    match r
    case Initiate(now, target, hasUser, code, fails) =>
      if fails then Keep
      else Store(State(id, now, 0, 0, 0, Generated(kind, hasUser, code), target, hasUser, false, false))
    case GiveUp => Drop
    case Guess(now, text, free, kept) =>
      if seen.None? then Keep
      else if Expired(l, seen.value, now) then Drop
      else if kind.PasswordReset? && seen.value.confirmed then Keep
      else if Rejects(kind, seen.value, text, free) then AsWrite(seen.value, Recorded(l, seen.value))
      else if Accepts(kind, seen.value, text, free) then AsWrite(seen.value, AfterAccept(kind, seen.value, kept))
      else Keep
    case Resend(now, code, fault, leak) =>
      if seen.None? then Keep
      else if Expired(l, seen.value, now) then Drop
      else if !CanResend(kind, l, seen.value) then Keep
      else if fault == Fine then Store(FullyResent(kind, seen.value, code))
      else if leak then Store(HalfResent(kind, seen.value, code, fault))
      else Keep
    case Change(now, target, taken, code, loggedInBefore, fault, leak) =>
      if seen.None? then Keep
      else if Expired(l, seen.value, now) then Drop
      else if !CanChange(kind, l, seen.value, loggedInBefore) then Keep
      else if fault == Fine then Store(FullyChanged(kind, seen.value, target, taken, code))
      else if leak then Store(HalfChanged(kind, seen.value, target, taken, code, fault))
      else Keep
    case Complete(now) =>
      if seen.None? then Keep
      else if Expired(l, seen.value, now) then Drop
      else if kind.PasswordReset? && seen.value.confirmed then Drop
      else Keep
  }

  /** The store after a write. */
  function Stored(w: Write, current: Option<State>): Option<State> {
    match w
    case Keep => current
    case Store(s) => Some(s)
    case Drop => None
  }

  /** Once a code was given out to a user by starting, resending or changing, that code decides: a
      guess is accepted exactly when it matches it, and rejected exactly when it does not, but for an
      address that somebody else owns now. */
  lemma NewCodeDecides(kind: Kind, l: Limits, seen: Option<State>, r: Request, id: nat, text: string, free: bool)
    requires (r.Initiate? && !r.fails) || ((r.Resend? || r.Change?) && r.fault == Fine)
    requires var w := Effect(kind, l, seen, r, id); w.Store? && w.state.hasUser
    ensures var t, c := Effect(kind, l, seen, r, id).state, CompareUserCode(text, r.code);
      var owned := !free && !kind.LoginCode? && !kind.PasswordReset?;
      var taken := kind.EmailCode? && if r.Initiate? then false else if r.Change? then r.taken else seen.value.taken;
      && (Accepts(kind, t, text, free) <==> c == Match && !owned && !taken)
      && (Rejects(kind, t, text, free) <==> c == NoMatch || (c == Match && owned))
  {
    hide CompareUserCode;
  }

  class Verification {
    const kind: Kind
    const l: Limits
    /** What the session holds. */
    var slot: Option<State>
    /** The copy the current request works on. */
    var state: State
    var nextId: nat
    ghost var log: seq<Event>

    ghost predicate Valid()
      reads this
    {
      LogOk(kind, l, log, nextId)
        && (slot.Some? ==> SlotOk(l, log, slot.value) && slot.value.id < nextId && Confirms(slot.value))
    }

    constructor (kind: Kind, l: Limits)
      ensures Valid() && slot == None && log == [] && this.kind == kind && this.l == l
    {
      this.kind, this.l := kind, l;
      slot, nextId, log := None, 0, [];
      state := State(0, 0.0, 0, 0, 0, "", "", false, false, false);
    }

    /** Only a password reset waits, its code confirmed, for something else. */
    predicate Confirms(s: State) {
      s.confirmed ==> kind.PasswordReset?
    }

    /** The request's copy agrees with the log, but for its code. */
    ghost predicate Working()
      reads this
    {
      LogOk(kind, l, log, nextId) && state.id < nextId && Counted(l, log, state) && Confirms(state)
    }

    ghost method Note(e: Event)
      requires LogOk(kind, l, log, nextId) && May(kind, l, log, e) && Ended(e.id) !in log && e.id < nextId
      modifies this`log
      ensures LogOk(kind, l, log, nextId) && log == old(log) + [e]
    {
      hide *;
      LogAppend(kind, l, log, nextId, e);
      log := log + [e];
    }

    /** Stores the copy; its code is the one given out last. */
    method Persist()
      requires Working() && LatestCode(log, state.id) == Some(state.code)
      modifies this`slot
      ensures Valid() && slot == Some(state)
    {
      slot := Some(state);
    }

    /** Stores the copy once a new code was given out. */
    method PersistCode(ghost code: string)
      requires Working() && state.code == code
      modifies this`slot, this`log
      ensures Valid() && slot == Some(state) && log == old(log) + [Coded(state.id, code)]
    {
      hide LogOk;
      NewCode(l, log, state);
      Note(Coded(state.id, code));
      slot := Some(state);
    }

    method Abort()
      requires Working()
      modifies this`slot, this`log
      ensures Valid() && slot == None && log == old(log) + [Ended(state.id)]
    {
      hide LogOk;
      Note(Ended(state.id));
      slot := None;
    }

    /** `resume`: loads the state; an expired process is aborted. */
    method Resume(now: real) returns (ok: bool)
      requires Valid()
      modifies this`slot, this`state, this`log
      ensures Valid()
      ensures ok <==> old(slot).Some? && now - old(slot).value.at <= l.timeout
      ensures ok ==> slot == old(slot) == Some(state) && log == old(log) && Working()
      ensures ok ==> LatestCode(log, state.id) == Some(state.code)
      ensures !ok ==> slot == None
      ensures !ok ==> log == old(log) + if old(slot).Some? then [Ended(old(slot).value.id)] else []
    {
      hide LogOk, Counted;
      if slot.None? {
        return false;
      }
      state := slot.value;
      ok := now - state.at <= l.timeout;
      if !ok {
        Abort();
      }
    }

    method RecordInvalidAttempt() returns (left: bool)
      requires Valid() && slot == Some(state)
      modifies this`slot, this`state, this`log
      ensures Valid() && (left <==> slot.Some?) && (left <==> old(state).failed + 1 < l.maxAttempts)
      ensures left ==> slot == Some(old(state).(failed := old(state).failed + 1))
      ensures log == old(log) + [Rejected(old(state).id)] + if left then [] else [Ended(old(state).id)]
    {
      hide LogOk, Counted, LatestCode;
      RejectionCounted(kind, l, log, state);
      Note(Rejected(state.id));
      state := state.(failed := state.failed + 1);
      left := state.failed < l.maxAttempts;
      if left {
        Persist();
      } else {
        Note(Ended(state.id));
        slot := None;
      }
    }

    /** The request fails with its copy in hand; `leak` when the session is saved nevertheless. `given` is
        the code that it made, if it got that far. */
    method Fail(leak: bool, ghost before: State, ghost given: Option<string>)
      requires Valid() && slot == Some(before) && Working() && LatestCode(log, state.id) == Some(before.code)
      requires state.code == if given.Some? then given.value else before.code
      modifies this`slot, this`log
      ensures Valid() && slot == if leak then Some(state) else old(slot)
      ensures log == old(log) + if leak && given.Some? then [Coded(state.id, given.value)] else []
    {
      if !leak {
        return;
      }
      hide LogOk, LatestCode;
      if given.Some? {
        NewCode(l, log, state);
        Note(Coded(state.id, given.value));
      }
      slot := Some(state);
    }

    /** `initiate`, which replaces any process there is. */
    method Begin(now: real, target: string, hasUser: bool, code: string, fails: bool) returns (r: Reply)
      requires Valid()
      modifies this
      ensures Valid() && r == if fails then Failed else Done
      ensures fails ==> slot == old(slot) && log == old(log)
      ensures !fails ==> var given := if hasUser || kind.EmailCode? then code else "";
        && slot == Some(State(old(nextId), now, 0, 0, 0, given, target, hasUser, false, false))
        && log == old(log) + (if old(slot).Some? then [Ended(old(slot).value.id)] else [])
                  + [Started(old(nextId), now), Coded(old(nextId), given)]
    {
      hide LogOk, Counted, SlotOk, LatestCode;
      if fails {
        return Failed;
      }
      EndOld();
      state := State(nextId, now, 0, 0, 0, "", target, hasUser, false, false);
      if hasUser || kind.EmailCode? {
        state := state.(code := code);
      }
      Open();
      PersistCode(if hasUser || kind.EmailCode? then code else "");
      r := Done;
    }

    ghost method EndOld()
      requires Valid()
      modifies this`log
      ensures LogOk(kind, l, log, nextId)
      ensures log == old(log) + if slot.Some? then [Ended(slot.value.id)] else []
    {
      hide LogOk, LatestCode;
      if slot.Some? {
        Note(Ended(slot.value.id));
      }
    }

    method Open()
      requires LogOk(kind, l, log, nextId) && state.id == nextId && state.failed == state.resends == state.changes == 0
      requires !state.confirmed
      modifies this`log, this`nextId
      ensures nextId == old(nextId) + 1 && Working() && log == old(log) + [Started(state.id, state.at)]
    {
      UnknownProcess(log, nextId, nextId);
      NewProcess(l, log, state);
      nextId := nextId + 1;
      Note(Started(state.id, state.at));
    }

    method TryGuess(now: real, text: string, free: bool, kept: bool) returns (r: Reply)
      requires Valid()
      modifies this`slot, this`state, this`log
      ensures Valid()
      ensures r == NoProcess <==> old(slot).None? || now - old(slot).value.at > l.timeout
      ensures r == NoProcess ==> slot == None
      ensures r != NoProcess ==>
        var s, c := old(slot).value, CompareUserCode(text, old(slot).value.code);
        var owned := !free && !kind.LoginCode? && !kind.PasswordReset?;
        if kind.PasswordReset? && s.confirmed then r == Refused && slot == old(slot) && log == old(log)
        else if c == NoMatch || (c == Match && owned) then
          && r == (if s.failed + 1 < l.maxAttempts then Wrong else Exhausted)
          && slot == (if r == Wrong then Some(s.(failed := s.failed + 1)) else None)
          && log == old(log) + [Rejected(s.id)] + if r == Wrong then [] else [Ended(s.id)]
        else if c == Match && s.hasUser && !(kind.EmailCode? && s.taken) then
          && r == Accepting
          && slot == (if kind.PasswordReset? then Some(s.(confirmed := true))
                      else if (kind.LoginCode? || kind.SignupPhone?) && kept then Some(s)
                      else None)
          && log == old(log) + [Accepted(s.id, s.at, now, text, s.code, KeepsLogin(kind) && kept)]
                    + if slot.Some? then [] else [Ended(s.id)]
        else r == Failed && slot == old(slot) && log == old(log)
    {
      hide LogOk, Counted, LatestCode;
      var ok := Resume(now);
      if !ok {
        return NoProcess;
      }
      if kind.PasswordReset? && state.confirmed {
        return Refused;
      }
      var c := CompareUserCode(text, state.code);
      if c == TypeError {
        return Failed;
      }
      if c == NoMatch || (ChecksOwner(kind) && !free) {
        var left := RecordInvalidAttempt();
        return if left then Wrong else Exhausted;
      }
      if !state.hasUser || (kind.EmailCode? && state.taken) {
        return Failed;
      }
      Accept(now, text, kept);
      r := Accepting;
    }

    method Accept(now: real, text: string, kept: bool)
      requires Valid() && slot == Some(state) && now - state.at <= l.timeout && !state.confirmed
      requires CompareUserCode(text, state.code) == Match
      modifies this`slot, this`state, this`log
      ensures Valid()
      ensures slot == if kind.PasswordReset? then Some(old(state).(confirmed := true))
                      else if KeepsLogin(kind) && kept then Some(old(state)) else None
      ensures log ==
        old(log) + [Accepted(old(state).id, old(state).at, now, text, old(state).code, KeepsLogin(kind) && kept)]
        + if slot.Some? then [] else [Ended(old(state).id)]
    {
      hide LogOk, Counted, LatestCode;
      AcceptanceCounted(kind, l, log, state, now, text, KeepsLogin(kind) && kept);
      Note(Accepted(state.id, state.at, now, text, state.code, KeepsLogin(kind) && kept));
      if kind.PasswordReset? {
        state := state.(confirmed := true);
        Persist();
      } else if KeepsLogin(kind) && kept {
      } else {
        Note(Ended(state.id));
        slot := None;
      }
    }

    /** The request has its copy in hand, and nothing done to it yet. */
    ghost predicate Ready()
      reads this
    {
      Valid() && slot == Some(state)
    }

    /** `resend` of a login code or an address: a new code is made and sent, and counted last. */
    method ResendMail(code: string, fault: Fault, leak: bool) returns (r: Reply)
      requires Ready() && state.resends < l.maxResends
      modifies this`slot, this`state, this`log
      ensures Valid()
      ensures var s := old(state);
        if fault == Fine then
          && r == Done && slot == Some(s.(resends := s.resends + 1, code := code))
          && log == old(log) + [Resent(s.id), Coded(s.id, code)]
        else
          && r == Failed && slot == (if leak then Some(s.(code := code)) else old(slot))
          && log == old(log) + if leak then [Coded(s.id, code)] else []
    {
      hide LogOk, Counted, LatestCode;
      ghost var before := state;
      state := state.(code := code);
      if fault != Fine {
        StillCounted(l, log, before, state);
        Fail(leak, before, Some(code));
        return Failed;
      }
      state := state.(resends := state.resends + 1);
      ResendCounted(kind, l, log, before, state);
      Note(Resent(state.id));
      PersistCode(code);
      r := Done;
    }

    /** `resend` by text message: counted first, then the rate limit is asked, then the code is made. */
    method ResendText(code: string, fault: Fault, leak: bool) returns (r: Reply)
      requires Ready() && state.resends < l.maxResends
      modifies this`slot, this`state, this`log
      ensures Valid()
      ensures var s, given := old(state), if old(state).hasUser then code else "";
        if fault == Fine then
          && r == Done && slot == Some(s.(resends := s.resends + 1, code := given))
          && log == old(log) + [Resent(s.id), Coded(s.id, given)]
        else
          && r == Failed
          && slot == (if !leak then old(slot)
                      else if fault == Early then Some(s.(resends := s.resends + 1))
                      else Some(s.(resends := s.resends + 1, code := given)))
          && log == old(log) + if leak && fault == Late then [Coded(s.id, given)] else []
    {
      hide LogOk, Counted, LatestCode;
      ghost var before := state;
      state := state.(resends := state.resends + 1);
      StillCounted(l, log, before, state);
      if fault == Early {
        Fail(leak, before, None);
        return Failed;
      }
      ghost var given := if state.hasUser then code else "";
      state := state.(code := if state.hasUser then code else "");
      if fault == Late {
        StillCounted(l, log, before, state);
        Fail(leak, before, Some(given));
        return Failed;
      }
      ResendCounted(kind, l, log, before, state);
      Note(Resent(state.id));
      PersistCode(given);
      r := Done;
    }

    /** A code is sent again. An exception midway leaves what was done by then. */
    method SendAgain(now: real, code: string, fault: Fault, leak: bool) returns (r: Reply)
      requires Valid()
      modifies this`slot, this`state, this`log
      ensures Valid()
      ensures r == NoProcess <==> old(slot).None? || now - old(slot).value.at > l.timeout
      ensures r == NoProcess ==> slot == None
      ensures r != NoProcess ==>
        var s, given := old(slot).value, if kind.SignupPhone? && !old(slot).value.hasUser then "" else code;
        if kind.PasswordReset? || kind.ChangePhone? || s.resends >= l.maxResends then
          r == Refused && slot == old(slot) && log == old(log)
        else if fault == Fine then
          && r == Done && slot == Some(s.(resends := s.resends + 1, code := given))
          && log == old(log) + [Resent(s.id), Coded(s.id, given)]
        else
          && r == Failed
          && slot == (if !leak then old(slot)
                      else if !kind.SignupPhone? then Some(s.(code := given))
                      else if fault == Early then Some(s.(resends := s.resends + 1))
                      else Some(s.(resends := s.resends + 1, code := given)))
          && log == old(log) + if leak && !(kind.SignupPhone? && fault == Early) then [Coded(s.id, given)] else []
    {
      hide LogOk, SlotOk, Counted, LatestCode;
      var ok := Resume(now);
      if !ok {
        return NoProcess;
      }
      if !CanResend(kind, l, state) {
        return Refused;
      }
      if kind.SignupPhone? {
        r := ResendText(code, fault, leak);
      } else {
        r := ResendMail(code, fault, leak);
      }
    }

    /** `change_to` of an address: the code is made first, then the address is added, then it counts. */
    method ChangeMail(target: string, taken: bool, code: string, fault: Fault, leak: bool) returns (r: Reply)
      requires Ready() && state.changes < l.maxChanges
      modifies this`slot, this`state, this`log
      ensures Valid()
      ensures var s, t := old(state), old(state).(taken := taken, code := code);
        if fault == Fine then
          && r == Done && slot == Some(t.(target := target, changes := s.changes + 1))
          && log == old(log) + [Changed(s.id), Coded(s.id, code)]
        else
          && r == Failed
          && slot == (if !leak then old(slot)
                      else if fault == Early then Some(t)
                      else Some(t.(target := target, changes := s.changes + 1)))
          && log == old(log) + if leak then [Coded(s.id, code)] else []
    {
      hide LogOk, Counted, LatestCode;
      ghost var before := state;
      state := state.(taken := taken, code := code);
      if fault == Early {
        StillCounted(l, log, before, state);
        Fail(leak, before, Some(code));
        return Failed;
      }
      state := state.(target := target, changes := state.changes + 1);
      if fault == Late {
        StillCounted(l, log, before, state);
        Fail(leak, before, Some(code));
        return Failed;
      }
      ChangeCounted(kind, l, log, before, state);
      Note(Changed(state.id));
      PersistCode(code);
      r := Done;
    }

    /** `change_to` of a number: counted first, then the rate limit is asked, then the code is made. */
    method ChangeText(target: string, taken: bool, code: string, fault: Fault, leak: bool) returns (r: Reply)
      requires Ready() && state.changes < l.maxChanges
      modifies this`slot, this`state, this`log
      ensures Valid()
      ensures var s, t := old(state), old(state).(taken := taken, target := target, changes := old(state).changes + 1);
        if fault == Fine then
          r == Done && slot == Some(t.(code := code)) && log == old(log) + [Changed(s.id), Coded(s.id, code)]
        else
          && r == Failed
          && slot == (if !leak then old(slot) else if fault == Early then Some(t) else Some(t.(code := code)))
          && log == old(log) + if leak && fault == Late then [Coded(s.id, code)] else []
    {
      hide LogOk, Counted, LatestCode;
      ghost var before := state;
      state := state.(taken := taken, target := target, changes := state.changes + 1);
      if fault == Early {
        StillCounted(l, log, before, state);
        Fail(leak, before, None);
        return Failed;
      }
      state := state.(code := code);
      if fault == Late {
        StillCounted(l, log, before, state);
        Fail(leak, before, Some(code));
        return Failed;
      }
      ChangeCounted(kind, l, log, before, state);
      Note(Changed(state.id));
      PersistCode(code);
      r := Done;
    }

    /** Another address or number. An exception midway leaves what was done by then. */
    method ChangeTo(now: real, target: string, taken: bool, code: string, loggedInBefore: bool, fault: Fault,
                    leak: bool)
      returns (r: Reply)
      requires Valid()
      modifies this`slot, this`state, this`log
      ensures Valid()
      ensures r == NoProcess <==> old(slot).None? || now - old(slot).value.at > l.timeout
      ensures r == NoProcess ==> slot == None
      ensures r != NoProcess ==> var s := old(slot).value;
        if !(kind.EmailCode? || kind.SignupPhone?) || s.changes >= l.maxChanges || !s.hasUser || loggedInBefore then
          r == Refused && slot == old(slot) && log == old(log)
        else if fault == Fine then
          && r == Done && slot == Some(s.(taken := taken, target := target, changes := s.changes + 1, code := code))
          && log == old(log) + [Changed(s.id), Coded(s.id, code)]
        else
          && r == Failed
          && slot == (if !leak then old(slot)
                      else if kind.EmailCode? && fault == Early then Some(s.(taken := taken, code := code))
                      else if fault == Early then Some(s.(taken := taken, target := target, changes := s.changes + 1))
                      else Some(s.(taken := taken, target := target, changes := s.changes + 1, code := code)))
          && log == old(log) + if leak && !(kind.SignupPhone? && fault == Early) then [Coded(s.id, code)] else []
    {
      hide LogOk, SlotOk, Counted, LatestCode;
      var ok := Resume(now);
      if !ok {
        return NoProcess;
      }
      if !CanChange(kind, l, state, loggedInBefore) {
        return Refused;
      }
      if kind.EmailCode? {
        r := ChangeMail(target, taken, code, fault, leak);
      } else {
        r := ChangeText(target, taken, code, fault, leak);
      }
    }

    /** The new password is set: only after the code was confirmed, and that ends the process. */
    method Finish(now: real) returns (r: Reply)
      requires Valid()
      modifies this`slot, this`state, this`log
      ensures Valid()
      ensures r == Done <==>
        old(slot).Some? && now - old(slot).value.at <= l.timeout && kind.PasswordReset? && old(slot).value.confirmed
      ensures r == Done ==> slot == None && log == old(log) + [Ended(old(slot).value.id)]
      ensures r == Refused ==> slot == old(slot) && log == old(log)
      ensures r == NoProcess <==> old(slot).None? || now - old(slot).value.at > l.timeout
      ensures r == NoProcess ==> slot == None
      ensures r in {Done, Refused, NoProcess}
    {
      hide LogOk, Counted, LatestCode;
      var ok := Resume(now);
      if !ok {
        return NoProcess;
      }
      if !kind.PasswordReset? || !state.confirmed {
        return Refused;
      }
      Abort();
      r := Done;
    }

    method Leave()
      requires Valid()
      modifies this`slot, this`state, this`log
      ensures Valid() && slot == None
    {
      hide LogOk, Counted, LatestCode;
      if slot.Some? {
        state := slot.value;
        Abort();
      }
    }

    /** A code is given out to a user, by starting, resending or changing, and then guessed in time. */
    method GiveOutAndGuess(r: Request, later: real, text: string, free: bool, kept: bool) returns (reply: Reply)
      requires Valid()
      requires (r.Initiate? && !r.fails && r.hasUser) || ((r.Resend? || r.Change?) && r.fault == Fine)
      requires !r.Initiate? ==>
        && slot.Some? && r.now - slot.value.at <= l.timeout && slot.value.hasUser
        && (kind.EmailCode? || kind.SignupPhone? || (kind.LoginCode? && r.Resend?))
        && (r.Resend? ==> slot.value.resends < l.maxResends)
        && (r.Change? ==> slot.value.changes < l.maxChanges && !r.loggedInBefore)
      requires later - (if r.Initiate? then r.now else slot.value.at) <= l.timeout
      modifies this
      ensures Valid()
      ensures CompareUserCode(text, r.code) == NoMatch ==> reply in {Wrong, Exhausted}
      ensures CompareUserCode(text, r.code) == Match && free ==>
        if kind.EmailCode? && ((r.Change? && r.taken) || (r.Resend? && old(slot).value.taken)) then reply == Failed
        else reply == Accepting
    {
      hide LogOk, SlotOk, Counted, LatestCode, CompareUserCode;
      if r.Initiate? {
        var _ := Begin(r.now, r.target, r.hasUser, r.code, r.fails);
      } else if r.Resend? {
        var _ := SendAgain(r.now, r.code, r.fault, r.leak);
      } else {
        var _ := ChangeTo(r.now, r.target, r.taken, r.code, r.loggedInBefore, r.fault, r.leak);
      }
      reply := TryGuess(later, text, free, kept);
    }

    /** One request, from loading to storing. */
    method Do(r: Request)
      requires Valid()
      modifies this
      ensures Valid()
      ensures slot == Stored(Effect(kind, l, old(slot), r, old(nextId)), old(slot))
    {
      hide LogOk, SlotOk, Counted, LatestCode, CompareUserCode;
      match r {
        case Initiate(now, target, hasUser, code, fails) => var _ := Begin(now, target, hasUser, code, fails);
        case Guess(now, text, free, kept) => var _ := TryGuess(now, text, free, kept);
        case Resend(now, code, fault, leak) => var _ := SendAgain(now, code, fault, leak);
        case Change(now, target, taken, code, before, fault, leak) =>
          var _ := ChangeTo(now, target, taken, code, before, fault, leak);
        case Complete(now) => var _ := Finish(now);
        case GiveUp => Leave();
      }
    }

    /** Any run of requests, one after the other. */
    method Serve(requests: seq<Request>)
      requires Valid()
      modifies this
      ensures Valid()
      ensures StartsOnce(log) && KeptOnlyByLogins(kind, log)
      ensures forall id ::
        && multiset(log)[Rejected(id)] <= (if l.maxAttempts < 1 then 1 else l.maxAttempts)
        && multiset(log)[Resent(id)] <= (if l.maxResends < 0 then 0 else l.maxResends)
        && multiset(log)[Changed(id)] <= (if l.maxChanges < 0 then 0 else l.maxChanges)
      ensures forall p {:trigger log[p]} :: 0 <= p < |log| && log[p].Accepted? ==> var e := log[p];
        && Started(e.id, e.at) in log[..p] && e.now - e.at <= l.timeout && CompareUserCode(e.text, e.code) == Match
        && exists q :: 0 <= q < p && log[q] == Coded(e.id, e.code)
                       && forall r :: q < r < p && log[r].Coded? ==> log[r].id != e.id
      ensures forall p, q | 0 <= p < q < |log| && log[p].Accepted? && log[q].Accepted? ::
        !log[p].kept && !log[q].kept ==> log[p].id != log[q].id
      ensures forall p, q :: 0 <= p < q < |log| && log[p].Ended? ==> log[q].id != log[p].id
    {
      hide CompareUserCode, Justified, Finals, LatestCode;
      for i := 0 to |requests|
        invariant Valid()
      {
        Do(requests[i]);
      }
      LogMeans(kind, l, log, nextId);
    }
  }
}
