/** The stages that allauth itself puts in the pipeline, and what they decide. */
module LoginPipelines {
  import opened Options
  import opened LoginStages
  import opened LoginSessions

  const VERIFY_PHONE: Key := "verify_phone"
  const VERIFY_EMAIL: Key := "verify_email"
  const MFA_AUTHENTICATE: Key := "mfa_authenticate"
  const MFA_TRUST: Key := "mfa_trust"
  const MFA_SIGNUP_WEBAUTHN: Key := "mfa_signup_webauthn"

  const CODE_REQUIRED := "login_by_code_required"
  const AUTHENTICATION_REQUIRED := "authentication_required"
  const CODE_SENT := "code_sent"

  datatype Settings = Settings(
    mfa: bool,
    mfaTrust: bool,
    codeTrust: bool,
    passkeySignup: bool,
    phoneField: bool,
    phoneRequired: bool,
    phoneVerification: bool)

  /** What the stages find out about a login during one request. */
  datatype Facts = Facts(
    hasUser: bool,
    codeRequired: bool,
    contactable: bool,
    sendFails: bool,
    phone: Option<bool>,
    emailVerification: EmailVerification,
    signup: bool,
    emailVerified: bool,
    mfaEnabled: bool,
    passwordless: bool,
    trustedBrowser: bool,
    appClient: bool,
    passkeySignup: bool)

  /** `get_login_stages`. */
  function StageKeys(cfg: Settings): seq<Key> {
    [LOGIN_BY_CODE, VERIFY_PHONE, VERIFY_EMAIL]
    + if !cfg.mfa then [] else
        [MFA_AUTHENTICATE] + Maybe(cfg.mfaTrust || cfg.codeTrust, MFA_TRUST)
          + Maybe(cfg.passkeySignup, MFA_SIGNUP_WEBAUTHN)
  }

  function Maybe(listed: bool, k: Key): seq<Key> {
    if listed then [k] else []
  }

  lemma KeysDiffer()
    ensures LOGIN_BY_CODE != VERIFY_PHONE && LOGIN_BY_CODE != VERIFY_EMAIL && LOGIN_BY_CODE != MFA_AUTHENTICATE
    ensures LOGIN_BY_CODE != MFA_TRUST && LOGIN_BY_CODE != MFA_SIGNUP_WEBAUTHN && VERIFY_PHONE != VERIFY_EMAIL
    ensures VERIFY_PHONE != MFA_AUTHENTICATE && VERIFY_PHONE != MFA_TRUST && VERIFY_PHONE != MFA_SIGNUP_WEBAUTHN
    ensures VERIFY_EMAIL != MFA_AUTHENTICATE && VERIFY_EMAIL != MFA_TRUST && VERIFY_EMAIL != MFA_SIGNUP_WEBAUTHN
    ensures |LOGIN_BY_CODE| > 8 && |VERIFY_PHONE| > 8 && |VERIFY_EMAIL| > 8
    ensures |MFA_AUTHENTICATE| > 8 && |MFA_TRUST| > 8 && |MFA_SIGNUP_WEBAUTHN| > 8
    ensures MFA_AUTHENTICATE != MFA_TRUST && MFA_AUTHENTICATE != MFA_SIGNUP_WEBAUTHN && MFA_TRUST != MFA_SIGNUP_WEBAUTHN
  {
    assert |LOGIN_BY_CODE| == 13 && |VERIFY_PHONE| == 12 && |VERIFY_EMAIL| == 12 && VERIFY_PHONE[7] != VERIFY_EMAIL[7];
    assert |MFA_AUTHENTICATE| == 16 && |MFA_TRUST| == 9 && |MFA_SIGNUP_WEBAUTHN| == 19;
  }

  lemma StageKeysArePipeline(cfg: Settings)
    ensures Pipeline(StageKeys(cfg)) && StageKeys(cfg)[0] == LOGIN_BY_CODE
    ensures [LOGIN_BY_CODE, VERIFY_PHONE, VERIFY_EMAIL] <= StageKeys(cfg)
    ensures if cfg.mfa then StageKeys(cfg)[3..4] == [MFA_AUTHENTICATE] else |StageKeys(cfg)| == 3
    ensures MFA_TRUST in StageKeys(cfg) <==> cfg.mfa && (cfg.mfaTrust || cfg.codeTrust)
    ensures MFA_SIGNUP_WEBAUTHN in StageKeys(cfg) <==> cfg.mfa && cfg.passkeySignup
    ensures cfg.mfa && cfg.passkeySignup ==> StageKeys(cfg)[|StageKeys(cfg)| - 1] == MFA_SIGNUP_WEBAUTHN
  {
    KeysDiffer();
    ArePipeline(StageKeys(cfg), LOGIN_BY_CODE, VERIFY_PHONE, VERIFY_EMAIL, MFA_AUTHENTICATE, MFA_TRUST,
                MFA_SIGNUP_WEBAUTHN);
  }

  lemma ArePipeline(keys: seq<Key>, a: Key, b: Key, c: Key, d: Key, e: Key, f: Key)
    requires keys == [a, b, c] || (exists t, w :: keys == [a, b, c, d] + Maybe(t, e) + Maybe(w, f))
    requires |a| > 8 && |b| > 8 && |c| > 8 && |d| > 8 && |e| > 8 && |f| > 8
    requires a != b && a != c && a != d && a != e && a != f && b != c && b != d && b != e && b != f
    requires c != d && c != e && c != f && d != e && d != f && e != f
    ensures Pipeline(keys)
  {
    assert |"current"| == 7;
    if keys != [a, b, c] {
      var t, w :| keys == [a, b, c, d] + Maybe(t, e) + Maybe(w, f);
      assert keys == [a, b, c, d, e, f] || keys == [a, b, c, d, e] || keys == [a, b, c, d, f] || keys == [a, b, c, d];
    }
  }

  function Flagged(data: Data, k: Key): Flags {
    if k in data then data[k] else {}
  }

  predicate CodeTrusted(cfg: Settings, f: Facts) {
    cfg.codeTrust && cfg.mfa && f.hasUser && f.trustedBrowser
  }

  /** A code process was started before, or has to be started, unless the browser is trusted. */
  function LoginByCode(cfg: Settings, f: Facts, data: Data): Outcome {
    var started := Flagged(data, LOGIN_BY_CODE);
    if started == {} && !f.codeRequired then Pass
    else if CodeTrusted(cfg, f) then Pass
    else if started == {} && !f.contactable then Reject
    else if started == {} && f.sendFails then Raise(false, {})
    else Challenge(started + {CODE_SENT, CODE_REQUIRED})
  }

  function PhoneVerification(cfg: Settings, f: Facts): Outcome {
    if !cfg.phoneField then Pass
    else if f.phone.None? then (if f.hasUser && cfg.phoneRequired then Abort(false, {}) else Pass)
    else if f.hasUser && (f.phone.value || !cfg.phoneVerification) then Pass
    else if f.sendFails then Raise(false, {})
    else Challenge({CODE_SENT})
  }

  /** Optional verification asks nothing, but sends a mail at a signup. */
  function VerifyEmail(f: Facts): Outcome {
    if f.emailVerification.NotVerified? || f.emailVerified then Pass
    else if f.emailVerification.Optional? then (if f.signup && f.sendFails then Raise(false, {}) else Pass)
    else if f.sendFails then Raise(false, {})
    else Challenge({})
  }

  predicate SecondFactorDue(f: Facts) {
    f.hasUser && f.mfaEnabled && !f.passwordless && !f.trustedBrowser
  }

  function Authenticate(f: Facts): Outcome {
    if SecondFactorDue(f) then Challenge({AUTHENTICATION_REQUIRED}) else Pass
  }

  function Trust(cfg: Settings, f: Facts, data: Data): Outcome {
    if && (!cfg.mfaTrust || AUTHENTICATION_REQUIRED !in Flagged(data, MFA_AUTHENTICATE))
       && (!cfg.codeTrust || CODE_REQUIRED !in Flagged(data, LOGIN_BY_CODE))
    then Pass
    else if f.appClient then Pass
    else Challenge({})
  }

  function Decide(cfg: Settings, f: Facts, k: Key, data: Data): Outcome {
    if k == LOGIN_BY_CODE then LoginByCode(cfg, f, data)
    else if k == VERIFY_PHONE then PhoneVerification(cfg, f)
    else if k == VERIFY_EMAIL then VerifyEmail(f)
    else if k == MFA_AUTHENTICATE then Authenticate(f)
    else if k == MFA_TRUST then Trust(cfg, f, data)
    else if f.passkeySignup then Challenge({})
    else Pass
  }

  // ---------- What each stage comes to ----------

  /** A login code stops everybody who started with one or needs one, unless the browser is trusted.
      Somebody who cannot be reached is turned away, and a failing send is an exception. */
  lemma LoginByCodeDecides(cfg: Settings, f: Facts, data: Data)
    ensures var d := Decide(cfg, f, LOGIN_BY_CODE, data);
      var started := LOGIN_BY_CODE in data && data[LOGIN_BY_CODE] != {};
      var due := (started || f.codeRequired) && !(cfg.codeTrust && cfg.mfa && f.hasUser && f.trustedBrowser);
      && (d.Pass? <==> !due)
      && (d.Reject? <==> due && !started && !f.contactable)
      && (d.Raise? <==> due && !started && f.contactable && f.sendFails)
      && (d.Challenge? <==> due && (started || (f.contactable && !f.sendFails)))
      && (d.Challenge? ==> CODE_REQUIRED in d.flags)
      && (d.Challenge? && started ==> data[LOGIN_BY_CODE] <= d.flags)
  {
  }

  /** A number that has to be verified is challenged; a user without a required one is sent away. */
  lemma PhoneDecides(cfg: Settings, f: Facts, data: Data)
    ensures var d := Decide(cfg, f, VERIFY_PHONE, data);
      var due := cfg.phoneField && f.phone.Some? && !(f.hasUser && (f.phone.value || !cfg.phoneVerification));
      && (d.Abort? <==> cfg.phoneField && cfg.phoneRequired && f.hasUser && f.phone.None?)
      && (d.Raise? <==> due && f.sendFails)
      && (d.Challenge? <==> due && !f.sendFails)
      && (d.Pass? <==> !d.Abort? && !due)
  {
    KeysDiffer();
  }

  /** Only mandatory verification of an unverified address asks; a mail, also the one that optional
      verification sends at a signup, may fail. */
  lemma EmailDecides(cfg: Settings, f: Facts, data: Data)
    ensures var d := Decide(cfg, f, VERIFY_EMAIL, data);
      var mails := !f.emailVerified
        && (f.emailVerification.Mandatory? || (f.emailVerification.Optional? && f.signup));
      && (d.Raise? <==> mails && f.sendFails)
      && (d.Challenge? <==> mails && !f.sendFails && f.emailVerification.Mandatory?)
      && (d.Pass? <==> !d.Raise? && !d.Challenge?)
  {
    KeysDiffer();
  }

  /** The second factor is asked of a user who has one, logged in with something else, and sits at a
      browser that is not trusted. With any one of these missing the stage lets the login pass. */
  lemma SecondFactorDecides(cfg: Settings, f: Facts, data: Data)
    ensures Decide(cfg, f, MFA_AUTHENTICATE, data) ==
      if f.hasUser && f.mfaEnabled && !f.passwordless && !f.trustedBrowser
      then Challenge({AUTHENTICATION_REQUIRED}) else Pass
  {
    KeysDiffer();
  }

  /** Trusting the browser is offered after a second factor or a login code that was asked for, where the
      setting allows it, but never to an app. */
  lemma TrustDecides(cfg: Settings, f: Facts, data: Data)
    ensures
      var factor := MFA_AUTHENTICATE in data && AUTHENTICATION_REQUIRED in data[MFA_AUTHENTICATE];
      var code := LOGIN_BY_CODE in data && CODE_REQUIRED in data[LOGIN_BY_CODE];
      Decide(cfg, f, MFA_TRUST, data) ==
        if !f.appClient && ((cfg.mfaTrust && factor) || (cfg.codeTrust && code)) then Challenge({}) else Pass
  {
    KeysDiffer();
  }

  lemma PasskeySignupDecides(cfg: Settings, f: Facts, data: Data)
    ensures Decide(cfg, f, MFA_SIGNUP_WEBAUTHN, data) == if f.passkeySignup then Challenge({}) else Pass
  {
    KeysDiffer();
  }

  /** The same decision; whether a failing request is saved nevertheless is left open. */
  predicate Alike(a: Outcome, b: Outcome) {
    a == b || (a.Abort? && b.Abort?) || (a.Raise? && b.Raise?)
  }

  /** The stages of a request that decide by what `facts` says about each login. */
  ghost predicate Real(cfg: Settings, stages: Stages, facts: nat -> Facts) {
    forall id, k, data :: Alike(stages(id, k, data), Decide(cfg, facts(id), k, data))
  }

  /** Nothing is asked of a login that has only just begun: it is completed in its first request. */
  predicate Unhindered(cfg: Settings, f: Facts) {
    && (f.codeRequired ==> cfg.codeTrust && cfg.mfa && f.hasUser && f.trustedBrowser)
    && (cfg.phoneField ==>
          if f.phone.None? then !f.hasUser || !cfg.phoneRequired
          else f.hasUser && (f.phone.value || !cfg.phoneVerification))
    && (f.emailVerification.Mandatory? ==> f.emailVerified)
    && (f.emailVerification.Optional? && f.signup && f.sendFails ==> f.emailVerified)
    && (cfg.mfa ==> !f.hasUser || !f.mfaEnabled || f.passwordless || f.trustedBrowser)
    && (cfg.mfa && cfg.passkeySignup ==> !f.passkeySignup)
  }

  /** A login runs through all stages at once if and only if none of them has a reason to stop it.
      Trusting the browser is never such a reason. */
  lemma DirectLoginIff(cfg: Settings, stages: Stages, facts: nat -> Facts, id: nat)
    requires Real(cfg, stages, facts)
    ensures Stop(StageKeys(cfg), 0, stages, id, map[]) == |StageKeys(cfg)| <==> Unhindered(cfg, facts(id))
  {
    hide Stop;
    KeysDiffer();
    var keys, f := StageKeys(cfg), facts(id);
    forall k
      ensures Alike(stages(id, k, map[]), Decide(cfg, f, k, map[]))
    {
    }
    StopIff(keys, 0, stages, id, map[]);
    if Unhindered(cfg, f) {
      assert forall k :: k in keys ==> Decide(cfg, f, k, map[]).Pass?;
    } else if cfg.mfa && SecondFactorDue(f) {
      assert keys[3] == MFA_AUTHENTICATE;
    } else if cfg.mfa && cfg.passkeySignup && f.passkeySignup {
      assert keys[|keys| - 1] == MFA_SIGNUP_WEBAUTHN;
    } else {
      assert keys[0] == LOGIN_BY_CODE && keys[1] == VERIFY_PHONE && keys[2] == VERIFY_EMAIL;
    }
  }

  /** A second factor that is due stops a new login: at its stage, unless one of the three before stops
      it already. */
  lemma SecondFactorStops(cfg: Settings, stages: Stages, facts: nat -> Facts, id: nat)
    requires Real(cfg, stages, facts) && cfg.mfa
    requires var f := facts(id); f.hasUser && f.mfaEnabled && !f.passwordless && !f.trustedBrowser
    ensures |StageKeys(cfg)| > 3 && StageKeys(cfg)[3] == MFA_AUTHENTICATE
    ensures var f, m := facts(id), Stop(StageKeys(cfg), 0, stages, id, map[]);
      var before := f.codeRequired || (f.emailVerification.Mandatory? && !f.emailVerified)
        || (f.emailVerification.Optional? && f.signup && f.sendFails && !f.emailVerified)
        || (cfg.phoneField && if f.phone.None? then cfg.phoneRequired else !f.phone.value && cfg.phoneVerification);
      if before then m < 3
      else m == 3 && stages(id, MFA_AUTHENTICATE, map[]) == Challenge({AUTHENTICATION_REQUIRED})
  {
    hide Stop;
    KeysDiffer();
    var keys := StageKeys(cfg);
    assert keys[0] == LOGIN_BY_CODE && keys[1] == VERIFY_PHONE && keys[2] == VERIFY_EMAIL;
    LoginByCodeDecides(cfg, facts(id), map[]);
    PhoneDecides(cfg, facts(id), map[]);
    EmailDecides(cfg, facts(id), map[]);
    SecondFactorDecides(cfg, facts(id), map[]);
    hide Decide;
    forall k
      ensures Alike(stages(id, k, map[]), Decide(cfg, facts(id), k, map[]))
    {
    }
  }

  /** What the stages find out about a login that has just been made. */
  predicate About(f: Facts, user: Option<User>, profile: Profile) {
    f.hasUser == user.Some? && f.emailVerification == profile.emailVerification && f.signup == profile.signup
  }

  /** A login is completed in its first request if and only if there is a user and nothing is asked
      of it (and no hook responds before). */
  method LogInDirectly(cfg: Settings, session: LoginSession, user: Option<User>, profile: Profile, now: real,
                       stages: Stages, ghost facts: nat -> Facts, blocked: bool)
    returns (r: Response)
    requires session.Valid() && session.keys == StageKeys(cfg) && now > 0.0
    requires Respects(stages, session.nextId, session.strict, session.needs)
    requires Real(cfg, stages, facts) && About(facts(session.nextId), user, profile)
    modifies session
    ensures session.Valid()
    ensures r == LoggedIn <==> user.Some? && !blocked && Unhindered(cfg, facts(old(session.nextId)))
    ensures r == NoUser <==> user.None? && Unhindered(cfg, facts(old(session.nextId)))
    ensures var f := facts(old(session.nextId));
      cfg.mfa && f.hasUser && f.mfaEnabled && !f.passwordless && !f.trustedBrowser ==>
        && r != LoggedIn
        && (var before := f.codeRequired || (f.emailVerification.Mandatory? && !f.emailVerified)
              || (f.emailVerification.Optional? && f.signup && f.sendFails && !f.emailVerified)
              || (cfg.phoneField
                  && if f.phone.None? then cfg.phoneRequired else !f.phone.value && cfg.phoneVerification);
            !blocked && !before ==>
              && r == Challenged && session.slot.Some? && session.slot.value.current == Some(MFA_AUTHENTICATE)
              && session.slot.value.data == map[MFA_AUTHENTICATE := {AUTHENTICATION_REQUIRED}])
  {
    ghost var f := facts(session.nextId);
    if cfg.mfa && f.hasUser && f.mfaEnabled && !f.passwordless && !f.trustedBrowser {
      SecondFactorStops(cfg, stages, facts, session.nextId);
    }
    hide Stop;
    DirectLoginIff(cfg, stages, facts, session.nextId);
    r := session.PerformLogin(user, profile, now, stages, blocked);
  }

  lemma StopIff(keys: seq<Key>, n: nat, stages: Stages, id: nat, data: Data)
    requires n <= |keys|
    ensures Stop(keys, n, stages, id, data) == |keys| <==>
      forall i :: n <= i < |keys| ==> stages(id, keys[i], data).Pass?
  {
  }

  /** The stages whose answers make trusting the browser worth asking. */
  function TrustNeeds(cfg: Settings): map<Key, set<Key>> {
    map[MFA_TRUST := (if cfg.mfaTrust then {MFA_AUTHENTICATE} else {})
      + (if cfg.codeTrust then {LOGIN_BY_CODE} else {})]
  }

  lemma TrustNeedsData(cfg: Settings, f: Facts, data: Data)
    requires Decide(cfg, f, MFA_TRUST, data).Challenge?
    ensures exists d :: d in TrustNeeds(cfg)[MFA_TRUST] && d in data && data[d] != {}
  {
    KeysDiffer();
    if cfg.mfaTrust && AUTHENTICATION_REQUIRED in Flagged(data, MFA_AUTHENTICATE) {
      assert MFA_AUTHENTICATE in TrustNeeds(cfg)[MFA_TRUST] && data[MFA_AUTHENTICATE] != {};
    } else {
      assert LOGIN_BY_CODE in TrustNeeds(cfg)[MFA_TRUST] && data[LOGIN_BY_CODE] != {};
    }
  }

  /** Over any run of requests: `members` lists logins with a stage that was due all along, whether a
      login code, a number or an address to verify, or a second factor. Such a login is completed only
      after that stage of it was exited; and trusting the browser is offered only to a login that has
      exited a second factor or a login code stage. */
  method RealSession(cfg: Settings, timeout: real, requests: seq<Request>,
                     ghost facts: seq<nat -> Facts>, ghost members: iset<(nat, Key)>)
    returns (session: LoginSession)
    requires |facts| == |requests|
    requires forall q :: q in requests && (q.Start? || q.AskCode?) ==> q.now > 0.0
    requires forall i :: 0 <= i < |requests| && (requests[i].Start? || requests[i].Leave?) ==>
      Real(cfg, requests[i].stages, facts[i])
    requires forall i, id, k ::
      0 <= i < |requests| && (requests[i].Start? || requests[i].Leave?) && (id, k) in members ==>
        var f := facts[i](id);
        || (k == LOGIN_BY_CODE && f.codeRequired && !(cfg.codeTrust && cfg.mfa && f.hasUser && f.trustedBrowser))
        || (k == VERIFY_PHONE && cfg.phoneField && cfg.phoneVerification && f.phone == Some(false))
        || (k == VERIFY_EMAIL && f.emailVerification.Mandatory? && !f.emailVerified)
        || (k == MFA_AUTHENTICATE && f.hasUser && f.mfaEnabled && !f.passwordless && !f.trustedBrowser)
    ensures fresh(session) && session.Valid() && session.keys == StageKeys(cfg)
    ensures forall p, k :: 0 <= p < |session.journal| && session.journal[p].DidLogin? ==>
      (session.journal[p].id, k) in members && k in session.keys ==>
        Exited(session.journal[p].id, k) in session.journal[..p]
    ensures forall p {:trigger session.journal[p]} ::
      0 <= p < |session.journal| && session.journal[p].WasChallenged? && session.journal[p].key == MFA_TRUST ==>
        var id, before := session.journal[p].id, session.journal[..p];
        || (cfg.mfaTrust && Exited(id, MFA_AUTHENTICATE) in before)
        || (cfg.codeTrust && Exited(id, LOGIN_BY_CODE) in before)
  {
    StageKeysArePipeline(cfg);
    session := new LoginSession(StageKeys(cfg), timeout, members, TrustNeeds(cfg));
    forall q, id: nat | q in requests && (q.Start? || q.Leave?)
      ensures Respects(q.stages, id, members, TrustNeeds(cfg))
    {
      var i :| 0 <= i < |requests| && requests[i] == q;
      forall k, data | (id, k) in members
        ensures !q.stages(id, k, data).Pass?
      {
        NeverPasses(cfg, facts[i](id), k, data);
        assert Alike(q.stages(id, k, data), Decide(cfg, facts[i](id), k, data));
      }
      RealRespects(cfg, q.stages, facts[i], id);
    }
    session.Serve(requests);
    forall p {:trigger session.journal[p]} | 0 <= p < |session.journal| && session.journal[p].WasChallenged?
      && session.journal[p].key == MFA_TRUST
      ensures var id, before := session.journal[p].id, session.journal[..p];
        || (cfg.mfaTrust && Exited(id, MFA_AUTHENTICATE) in before)
        || (cfg.codeTrust && Exited(id, LOGIN_BY_CODE) in before)
    {
      assert Answers(session.journal[..p], session.journal[p], session.needs);
    }
  }

  lemma NeverPasses(cfg: Settings, f: Facts, k: Key, data: Data)
    requires
      || (k == LOGIN_BY_CODE && f.codeRequired && !(cfg.codeTrust && cfg.mfa && f.hasUser && f.trustedBrowser))
      || (k == VERIFY_PHONE && cfg.phoneField && cfg.phoneVerification && f.phone == Some(false))
      || (k == VERIFY_EMAIL && f.emailVerification.Mandatory? && !f.emailVerified)
      || (k == MFA_AUTHENTICATE && f.hasUser && f.mfaEnabled && !f.passwordless && !f.trustedBrowser)
    ensures !Decide(cfg, f, k, data).Pass?
  {
    LoginByCodeDecides(cfg, f, data);
    PhoneDecides(cfg, f, data);
    EmailDecides(cfg, f, data);
    SecondFactorDecides(cfg, f, data);
  }

  /** Trust is offered only on data of the stages that make it worth asking. */
  lemma RealRespects(cfg: Settings, stages: Stages, facts: nat -> Facts, id: nat)
    requires Real(cfg, stages, facts)
    ensures forall k, data :: k in TrustNeeds(cfg) && stages(id, k, data).Challenge? ==>
      exists d :: d in TrustNeeds(cfg)[k] && d in data && data[d] != {}
  {
    forall k, data | k in TrustNeeds(cfg) && stages(id, k, data).Challenge?
      ensures exists d :: d in TrustNeeds(cfg)[k] && d in data && data[d] != {}
    {
      assert Alike(stages(id, k, data), Decide(cfg, facts(id), k, data));
      TrustNeedsData(cfg, facts(id), data);
    }
  }
}
