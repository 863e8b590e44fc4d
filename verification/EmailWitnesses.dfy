/** Short runs from an empty database that end where one would not expect. */
module EmailWitnesses {
  import opened EmailTables
  import opened EmailRuns

  const NOBODY := Tables(map[], map[])

  /** A user signed up with these addresses, stored from key 1 on. */
  ghost function SignedUp(user: User, addresses: seq<Address>): Tables {
    Tables(Saved(map[], user, addresses, 1, |addresses|), SetupEmail(map[], user, addresses, |addresses|))
  }

  lemma SignUp(cfg: Settings, user: User, addresses: seq<Address>)
    requires CleanFor(cfg, map[], addresses)
    ensures StepOk(cfg, NOBODY, SetupUserEmail(user, addresses), SignedUp(user, addresses))
  {
  }

  lemma TwoSteps(cfg: Settings, s: Tables, a: Op, t: Tables, b: Op, u: Tables)
    requires StepOk(cfg, s, a, t) && StepOk(cfg, t, b, u)
    ensures Run(cfg, [s, t, u], [a, b])
  {
    hide Step, Allowed;
  }

  /** A signup with two verified addresses: not one of each. */
  lemma SignUpBreaksOneOfEach(cfg: Settings, user: User, a: Email, b: Email)
    requires cfg.changeEmail && a != b
    ensures var addresses := [Address(a, true, true), Address(b, true, false)];
      var t := SignedUp(user, addresses);
      OneOfEach(NOBODY.rows) && StepOk(cfg, NOBODY, SetupUserEmail(user, addresses), t) && !OneOfEach(t.rows)
  {
    var addresses := [Address(a, true, true), Address(b, true, false)];
    SignUp(cfg, user, addresses);
    OneOfEachKeptIff(cfg, NOBODY, SetupUserEmail(user, addresses), SignedUp(user, addresses));
    assert addresses[0].verified == addresses[1].verified;
  }

  /** A signup with one unverified address. */
  ghost function Pending(user: User, a: Email): Tables {
    Tables(map[1 := Row(user, a, false, true)], map[user := a])
  }

  lemma SignUpPending(cfg: Settings, user: User, a: Email)
    ensures StepOk(cfg, NOBODY, SetupUserEmail(user, [Address(a, false, true)]), Pending(user, a))
  {
    var addresses := [Address(a, false, true)];
    SignUp(cfg, user, addresses);
    assert Saved(map[], user, addresses, 1, 0) == map[];
    assert SignedUp(user, addresses) == Pending(user, a);
  }

  /** Adding, or syncing with, another address then makes two pending ones. */
  lemma SecondPendingAddress(cfg: Settings, user: User, a: Email, b: Email)
    requires cfg.changeEmail && a != b
    ensures var s := Pending(user, a);
      var t := Tables(s.rows[2 := Row(user, b, false, false)], s.emails);
      var signUp := SetupUserEmail(user, [Address(a, false, true)]);
      && Run(cfg, [NOBODY, s, t], [signUp, AddEmail(user, b)]) && Run(cfg, [NOBODY, s, t], [signUp, SyncEmail(user, b)])
      && OneOfEach(s.rows) && !OneOfEach(t.rows)
  {
    var s := Pending(user, a);
    var t := Tables(s.rows[2 := Row(user, b, false, false)], s.emails);
    SignUpPending(cfg, user, a);
    assert Inserted(s.rows, 2, Row(user, b, false, false), t.rows);
    assert !HasEmail(s.rows, user, b);
    TwoSteps(cfg, NOBODY, SetupUserEmail(user, [Address(a, false, true)]), s, AddEmail(user, b), t);
    TwoSteps(cfg, NOBODY, SetupUserEmail(user, [Address(a, false, true)]), s, SyncEmail(user, b), t);
    assert t.rows[1].verified == t.rows[2].verified;
  }

  /** Changing to another address before the first is verified leaves the user without a primary. */
  lemma UnverifiedPrimaryDropped(cfg: Settings, user: User, a: Email, b: Email)
    ensures var s := Pending(user, a);
      var t := Tables(map[2 := Row(user, b, false, false)], map[user := ""]);
      && Run(cfg, [NOBODY, s, t], [SetupUserEmail(user, [Address(a, false, true)]), AddNewEmail(user, b)])
      && HasPrimary(s.rows, user) && !HasPrimary(t.rows, user)
  {
    var s := Pending(user, a);
    var t := Tables(map[2 := Row(user, b, false, false)], map[user := ""]);
    SignUpPending(cfg, user, a);
    assert IsNew(s.rows, user, 1) && s.rows - {1} == map[];
    assert s.rows[1].primary;
    assert Inserted(s.rows - {1}, 2, Row(user, b, false, false), t.rows);
    assert s.emails[user := ""] == t.emails && Alternative(s.rows - {1}, user, "");
    assert AfterRemoval(s.rows - {1}, s.emails, s.rows[1], t.emails);
    TwoSteps(cfg, NOBODY, SetupUserEmail(user, [Address(a, false, true)]), s, AddNewEmail(user, b), t);
  }

  /** A signup with two unverified addresses, the first of them primary. */
  ghost function TwoPending(user: User, a: Email, c: Email): Tables {
    Tables(map[1 := Row(user, a, false, true), 2 := Row(user, c, false, false)], map[user := a])
  }

  /** When somebody who signed up with two unverified addresses changes the address to be verified,
      the code drops the second one; the first stays primary, and `user.email` leaves it behind. */
  lemma ChangeLeavesPrimaryBehind(cfg: Settings, user: User, a: Email, b: Email, c: Email)
    requires a != b && b != c && a != c
    ensures var s := TwoPending(user, a, c);
      var t := Tables(map[1 := Row(user, a, false, true), 3 := Row(user, b, false, false)], s.emails);
      && Run(cfg, [NOBODY, s, t],
             [SetupUserEmail(user, [Address(a, false, true), Address(c, false, false)]), AddNewEmail(user, b)])
      && Synced(s.rows, s.emails) && Synced(t.rows, t.emails) && !Synced(t.rows, t.emails[user := b])
  {
    var addresses := [Address(a, false, true), Address(c, false, false)];
    var s := TwoPending(user, a, c);
    var t := Tables(map[1 := Row(user, a, false, true), 3 := Row(user, b, false, false)], s.emails);
    SignUp(cfg, user, addresses);
    assert Saved(map[], user, addresses, 1, 1) == map[1 := Row(user, a, false, true)];
    assert SetupEmail(map[], user, addresses, 1) == map[user := a];
    assert Saved(map[], user, addresses, 1, 2) == s.rows && SetupEmail(map[], user, addresses, 2) == s.emails;
    assert IsNew(s.rows, user, 2) && !IsNew(s.rows, user, 1);
    assert s.rows - {2} == map[1 := Row(user, a, false, true)];
    assert Inserted(s.rows - {2}, 3, Row(user, b, false, false), t.rows);
    assert AfterRemoval(s.rows - {2}, s.emails, s.rows[2], t.emails);
    TwoSteps(cfg, NOBODY, SetupUserEmail(user, addresses), s, AddNewEmail(user, b), t);
    assert t.rows[1].primary && UserEmail(t.emails[user := b], user) == b;
  }
}
