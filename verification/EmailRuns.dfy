/** What holds over every run of the email operations. */
module EmailRuns {
  import opened EmailTables

  datatype Tables = Tables(rows: Rows, emails: Emails)

  ghost predicate StepOk(cfg: Settings, s: Tables, op: Op, t: Tables) {
    Allowed(cfg, s.rows, op) && Step(cfg, s.rows, s.emails, op, t.rows, t.emails)
  }

  ghost predicate Run(cfg: Settings, trace: seq<Tables>, ops: seq<Op>) {
    && |trace| == |ops| + 1
    && forall i :: 0 <= i < |ops| ==> StepOk(cfg, trace[i], ops[i], trace[i + 1])
  }

  /** Starting from good tables, every state of every run satisfies the constraints and has
      `user.email` equal to the primary's email. */
  lemma RunGood(cfg: Settings, trace: seq<Tables>, ops: seq<Op>, n: nat)
    requires Run(cfg, trace, ops) && n < |trace|
    requires Good(cfg, trace[0].rows, trace[0].emails)
    ensures Good(cfg, trace[n].rows, trace[n].emails)
    ensures var rows, emails := trace[n].rows, trace[n].emails;
      && (forall p, q | p in rows && q in rows && p != q ::
            && (rows[p].user == rows[q].user ==>
                  rows[p].email != rows[q].email && !(rows[p].primary && rows[q].primary))
            && !(cfg.uniqueEmail && rows[p].email == rows[q].email && rows[p].verified && rows[q].verified))
      && forall p | p in rows && rows[p].primary :: UserEmail(emails, rows[p].user) == rows[p].email
  {
    StaysGood(cfg, trace, ops, n);
    hide Run;
    var rows := trace[n].rows;
    forall p, q | p in rows && q in rows && p != q
      ensures !Clash(cfg, rows[p], rows[q])
    {
    }
  }

  lemma {:induction false} StaysGood(cfg: Settings, trace: seq<Tables>, ops: seq<Op>, n: nat)
    requires Run(cfg, trace, ops) && n < |trace|
    requires Good(cfg, trace[0].rows, trace[0].emails)
    ensures Good(cfg, trace[n].rows, trace[n].emails)
  {
    hide Good, Step, Allowed;
    if n > 0 {
      StaysGood(cfg, trace, ops, n - 1);
      assert StepOk(cfg, trace[n - 1], ops[n - 1], trace[n]);
      StepKeeps(cfg, trace[n - 1].rows, trace[n - 1].emails, ops[n - 1], trace[n].rows, trace[n].emails);
    }
  }

  // ---------- Change-email mode ----------

  /** At most one verified and at most one pending address per user. */
  ghost predicate OneOfEach(rows: Rows) {
    forall p, q | p in rows && q in rows && p != q && rows[p].user == rows[q].user ::
      rows[p].verified != rows[q].verified
  }

  /** What an operation must not do: add a second pending address next to the first, or set up a
      user with two verified or two unverified addresses. */
  ghost predicate KeepsOneOfEach(rows: Rows, op: Op) {
    match op
    case AddEmail(user, email) => HasEmail(rows, user, email) || NoNew(rows, user)
    case SyncEmail(user, email) => HasEmail(rows, user, email) || NoNew(rows, user)
    case SetupUserEmail(_, addresses) =>
      forall i, j | 0 <= i < j < |addresses| :: addresses[i].verified != addresses[j].verified
    case _ => true
  }

  /** A step keeps one address of each kind if and only if it is none of these. */
  lemma OneOfEachKeptIff(cfg: Settings, s: Tables, op: Op, t: Tables)
    requires cfg.changeEmail && OneOfEach(s.rows) && StepOk(cfg, s, op, t)
    ensures OneOfEach(t.rows) <==> KeepsOneOfEach(s.rows, op)
  {
    match op
    case AddEmail(user, email) => EnsuredKeepsIff(s.rows, user, email, t.rows);
    case SyncEmail(user, email) => EnsuredKeepsIff(s.rows, user, email, t.rows);
    case SetupUserEmail(user, addresses) => SetUpKeepsIff(cfg, s, user, addresses, t);
    case AddNewEmail(user, email) => AddNewKeeps(cfg, s, user, email, t);
    case _ =>
  }

  lemma AddNewKeeps(cfg: Settings, s: Tables, user: User, email: Email, t: Tables)
    requires OneOfEach(s.rows) && StepOk(cfg, s, AddNewEmail(user, email), t)
    ensures OneOfEach(t.rows)
  {
  }

  lemma EnsuredKeepsIff(rows: Rows, user: User, email: Email, rows': Rows)
    requires OneOfEach(rows) && Ensured(rows, user, email, rows')
    ensures OneOfEach(rows') <==> HasEmail(rows, user, email) || NoNew(rows, user)
  {
    if !HasEmail(rows, user, email) {
      var pk :| Inserted(rows, pk, Row(user, email, false, false), rows');
      if NoNew(rows, user) {
        assert forall q | q in rows :: rows'[q] == rows[q];
      } else {
        var q :| q in rows && rows[q].user == user && !rows[q].verified;
        assert rows'[q] == rows[q] && rows'[pk].verified == rows'[q].verified;
      }
    }
  }

  lemma SetUpKeepsIff(cfg: Settings, s: Tables, user: User, addresses: seq<Address>, t: Tables)
    requires OneOfEach(s.rows) && StepOk(cfg, s, SetupUserEmail(user, addresses), t)
    ensures OneOfEach(t.rows) <==> KeepsOneOfEach(s.rows, SetupUserEmail(user, addresses))
  {
    var base: nat :| (forall q | q in s.rows :: q < base)
      && t.rows == Saved(s.rows, user, addresses, base, |addresses|);
    hide OneOfEach, Saved, SetupEmail;
    if OneOfEach(t.rows) {
      SavedApart(s.rows, user, addresses, base);
    }
    if KeepsOneOfEach(s.rows, SetupUserEmail(user, addresses)) {
      SavedOneOfEach(s.rows, user, addresses, base);
    }
  }

  lemma SavedApart(rows: Rows, user: User, addresses: seq<Address>, base: Pk)
    requires (forall q | q in rows :: q < base) && OneOfEach(Saved(rows, user, addresses, base, |addresses|))
    ensures forall i, j | 0 <= i < j < |addresses| :: addresses[i].verified != addresses[j].verified
  {
    var saved := Saved(rows, user, addresses, base, |addresses|);
    SavedRows(rows, user, addresses, base, |addresses|);
    hide Saved;
    forall i, j | 0 <= i < j < |addresses|
      ensures addresses[i].verified != addresses[j].verified
    {
      assert saved[base + i] == RowOf(user, addresses[i]) && saved[base + j] == RowOf(user, addresses[j]);
    }
  }

  lemma SavedOneOfEach(rows: Rows, user: User, addresses: seq<Address>, base: Pk)
    requires (forall q | q in rows :: q < base) && OneOfEach(rows) && !HasRow(rows, user)
    requires forall i, j | 0 <= i < j < |addresses| :: addresses[i].verified != addresses[j].verified
    ensures OneOfEach(Saved(rows, user, addresses, base, |addresses|))
  {
    var saved := Saved(rows, user, addresses, base, |addresses|);
    SavedRows(rows, user, addresses, base, |addresses|);
    hide Saved;
    forall p, q | p in saved && q in saved && p != q && saved[p].user == saved[q].user
      ensures saved[p].verified != saved[q].verified
    {
      if p >= base && q >= base {
        assert saved[p] == RowOf(user, addresses[p - base]) && saved[q] == RowOf(user, addresses[q - base]);
      }
    }
  }

  /** Over a run, at most one verified and one pending address per user throughout if and only if no
      operation of the run adds a second one. */
  lemma {:induction false} OneOfEachAlwaysIff(cfg: Settings, trace: seq<Tables>, ops: seq<Op>)
    requires cfg.changeEmail && Run(cfg, trace, ops) && OneOfEach(trace[0].rows)
    ensures (forall n | 0 <= n < |trace| :: OneOfEach(trace[n].rows))
      <==> forall i | 0 <= i < |ops| :: KeepsOneOfEach(trace[i].rows, ops[i])
  {
    hide OneOfEach, Step, Allowed, KeepsOneOfEach;
    if forall n | 0 <= n < |trace| :: OneOfEach(trace[n].rows) {
      forall i | 0 <= i < |ops|
        ensures KeepsOneOfEach(trace[i].rows, ops[i])
      {
        assert StepOk(cfg, trace[i], ops[i], trace[i + 1]);
        OneOfEachKeptIff(cfg, trace[i], ops[i], trace[i + 1]);
      }
    }
    if forall i | 0 <= i < |ops| :: KeepsOneOfEach(trace[i].rows, ops[i]) {
      forall n | 0 <= n < |trace|
        ensures OneOfEach(trace[n].rows)
      {
        OneOfEachAlways(cfg, trace, ops, n);
      }
    }
  }

  lemma {:induction false} OneOfEachAlways(cfg: Settings, trace: seq<Tables>, ops: seq<Op>, n: nat)
    requires cfg.changeEmail && Run(cfg, trace, ops) && n < |trace| && OneOfEach(trace[0].rows)
    requires forall i :: 0 <= i < |ops| ==> KeepsOneOfEach(trace[i].rows, ops[i])
    ensures OneOfEach(trace[n].rows)
  {
    hide OneOfEach, Step, Allowed, KeepsOneOfEach;
    if n > 0 {
      OneOfEachAlways(cfg, trace, ops, n - 1);
      assert StepOk(cfg, trace[n - 1], ops[n - 1], trace[n]);
      OneOfEachKeptIff(cfg, trace[n - 1], ops[n - 1], trace[n]);
    }
  }

  /** `row` is stored under `pk` and is its user's only one. */
  ghost predicate OnlyRow(rows: Rows, pk: Pk, row: Row) {
    pk in rows && rows[pk] == row && forall p | p in rows && rows[p].user == row.user :: p == pk
  }

  /** A successful verification leaves the user one address: verified, primary, and `user.email`. */
  lemma VerificationCollapses(cfg: Settings, s: Tables, pk: Pk, t: Tables)
    requires cfg.changeEmail && StepOk(cfg, s, Verify(pk), t) && CanSetVerified(cfg, s.rows, pk, s.rows[pk])
    ensures var user := s.rows[pk].user;
      && OnlyRow(t.rows, pk, Row(user, s.rows[pk].email, true, true))
      && UserEmail(t.emails, user) == s.rows[pk].email
      && forall p | p in s.rows && s.rows[p].user != user :: p in t.rows && t.rows[p] == s.rows[p]
  {
  }

  /** The same for an address that only a code process knows: a new row comes out as the only one. */
  lemma PendingVerificationCollapses(cfg: Settings, s: Tables, user: User, email: Email, t: Tables)
    requires cfg.changeEmail && StepOk(cfg, s, VerifyPending(user, email), t)
    requires !cfg.uniqueEmail || !exists p :: p in s.rows && s.rows[p].verified && s.rows[p].email == email
    ensures exists pk :: pk !in s.rows && OnlyRow(t.rows, pk, Row(user, email, true, true))
    ensures forall p | p in t.rows && t.rows[p].user != user :: p in s.rows
    ensures forall p | p in s.rows && s.rows[p].user != user :: p in t.rows && t.rows[p] == s.rows[p]
    ensures UserEmail(t.emails, user) == email
    ensures forall u :: u != user ==> UserEmail(t.emails, u) == UserEmail(s.emails, u)
  {
    var row := Row(user, email, false, false);
    var pk :| pk !in s.rows && (forall q | q in s.rows :: q < pk) &&
      if CanSetVerified(cfg, s.rows, pk, row)
      then t.rows == Verified(cfg, s.rows, pk, row) && t.emails == VerifiedEmails(cfg, s.rows, s.emails, row)
      else t.rows == s.rows && t.emails == s.emails;
    assert CanSetVerified(cfg, s.rows, pk, row);
    assert OnlyRow(t.rows, pk, Row(user, email, true, true));
  }

  // ---------- Who loses a primary ----------

  /** Deleting a sole address, or replacing an unverified primary by a new pending address. */
  ghost predicate LosesPrimary(cfg: Settings, rows: Rows, op: Op, user: User) {
    match op
    case DeleteEmail(pk) => pk in rows && rows[pk].user == user && rows[pk].primary && CanDelete(cfg, rows, pk)
    case AddNewEmail(u, email) =>
      u == user && FreeToAdd(rows, u, email) && exists last :: IsNew(rows, user, last) && rows[last].primary
    case _ => false
  }

  lemma PrimaryLostIff(cfg: Settings, s: Tables, op: Op, t: Tables, user: User)
    requires Good(cfg, s.rows, s.emails) && StepOk(cfg, s, op, t) && HasPrimary(s.rows, user)
    ensures !HasPrimary(t.rows, user) <==> LosesPrimary(cfg, s.rows, op, user)
    ensures op.DeleteEmail? && !HasPrimary(t.rows, user) ==> !HasRow(t.rows, user)
  {
    var p :| p in s.rows && s.rows[p].user == user && s.rows[p].primary;
    match op
    case Verify(pk) =>
      if s.rows[pk].user != user || !cfg.changeEmail {
        assert p in t.rows;
      } else if CanSetVerified(cfg, s.rows, pk, s.rows[pk]) {
        assert t.rows[pk].primary;
      }
    case VerifyPending(u, email) => PendingPrimary(cfg, s, u, email, t, user, p);
    case AddEmail(_, _) => assert p in t.rows && t.rows[p] == s.rows[p];
    case AddNewEmail(u, email) => AddNewPrimary(cfg, s, u, email, t, user, p);
    case DeleteEmail(pk) =>
      if p != pk {
        assert !Clash(cfg, s.rows[p], s.rows[pk]);
        assert p in t.rows;
      } else if t.rows == s.rows - {pk} {
        assert forall q | q in t.rows && t.rows[q].user == user :: !Clash(cfg, s.rows[q], s.rows[p]);
      }
    case MarkAsPrimary(pk) =>
      if s.rows[pk].user != user || t.rows == s.rows {
        assert t.rows[p] == s.rows[p];
      } else {
        assert t.rows[pk].primary;
      }
    case SyncEmail(_, _) => assert p in t.rows && t.rows[p] == s.rows[p];
    case SetupUserEmail(u, addresses) =>
      SetUpStays(cfg, s, u, addresses, t);
      assert p in t.rows && t.rows[p] == s.rows[p];
  }

  /** Setting up one user leaves every row there is. */
  lemma SetUpStays(cfg: Settings, s: Tables, u: User, addresses: seq<Address>, t: Tables)
    requires StepOk(cfg, s, SetupUserEmail(u, addresses), t)
    ensures forall p | p in s.rows :: p in t.rows && t.rows[p] == s.rows[p]
  {
    var base: nat :| (forall q | q in s.rows :: q < base) && t.rows == Saved(s.rows, u, addresses, base, |addresses|);
    SavedRows(s.rows, u, addresses, base, |addresses|);
  }

  lemma PendingPrimary(cfg: Settings, s: Tables, u: User, email: Email, t: Tables, user: User, p: Pk)
    requires StepOk(cfg, s, VerifyPending(u, email), t)
    requires p in s.rows && s.rows[p].user == user && s.rows[p].primary
    ensures HasPrimary(t.rows, user)
  {
    var row := Row(u, email, false, false);
    var pk :| pk !in s.rows && (forall q | q in s.rows :: q < pk) &&
      if CanSetVerified(cfg, s.rows, pk, row)
      then t.rows == Verified(cfg, s.rows, pk, row) && t.emails == VerifiedEmails(cfg, s.rows, s.emails, row)
      else t.rows == s.rows && t.emails == s.emails;
    if CanSetVerified(cfg, s.rows, pk, row) && cfg.changeEmail && u == user {
      assert t.rows[pk].primary;
    } else {
      assert HasPrimary(s.rows, user);
      assert p in t.rows && t.rows[p] == s.rows[p];
    }
  }

  lemma AddNewPrimary(cfg: Settings, s: Tables, u: User, email: Email, t: Tables, user: User, p: Pk)
    requires Good(cfg, s.rows, s.emails) && StepOk(cfg, s, AddNewEmail(u, email), t)
    requires p in s.rows && s.rows[p].user == user && s.rows[p].primary
    ensures HasPrimary(t.rows, user) <==> !(u == user && FreeToAdd(s.rows, u, email) && IsNew(s.rows, user, p))
    ensures u == user && FreeToAdd(s.rows, u, email) && IsNew(s.rows, user, p) <==>
      LosesPrimary(cfg, s.rows, AddNewEmail(u, email), user)
  {
    forall q | q in s.rows && s.rows[q].user == user && s.rows[q].primary
      ensures q == p
    {
      assert q != p ==> !Clash(cfg, s.rows[q], s.rows[p]);
    }
    var row := Row(u, email, false, false);
    if !FreeToAdd(s.rows, u, email) {
      assert t.rows[p] == s.rows[p];
    } else if NoNew(s.rows, u) {
      var pk :| Inserted(s.rows, pk, row, t.rows);
      assert t.rows[p] == s.rows[p];
    } else {
      var last, pk :| IsNew(s.rows, u, last) && Inserted(s.rows - {last}, pk, row, t.rows)
                      && AfterRemoval(s.rows - {last}, s.emails, s.rows[last], t.emails);
      if last != p {
        assert t.rows[p] == s.rows[p];
      }
    }
  }

  lemma PendingVerifiedPrimary(cfg: Settings, s: Tables, u: User, email: Email, t: Tables, user: User, p: Pk)
    requires StepOk(cfg, s, VerifyPending(u, email), t)
    requires p in s.rows && s.rows[p].user == user && s.rows[p].verified && s.rows[p].primary
    ensures HasVerifiedPrimary(t.rows, user)
  {
    var row := Row(u, email, false, false);
    var pk :| pk !in s.rows && (forall q | q in s.rows :: q < pk) &&
      if CanSetVerified(cfg, s.rows, pk, row)
      then t.rows == Verified(cfg, s.rows, pk, row) && t.emails == VerifiedEmails(cfg, s.rows, s.emails, row)
      else t.rows == s.rows && t.emails == s.emails;
    if CanSetVerified(cfg, s.rows, pk, row) && cfg.changeEmail && u == user {
      assert t.rows[pk].verified && t.rows[pk].primary;
    } else {
      assert HasPrimary(s.rows, user);
      assert t.rows[p] == s.rows[p];
    }
  }

  /** A verified primary is never replaced by an unverified one. */
  lemma VerifiedPrimaryStays(cfg: Settings, s: Tables, op: Op, t: Tables, user: User)
    requires Good(cfg, s.rows, s.emails) && StepOk(cfg, s, op, t)
    requires HasVerifiedPrimary(s.rows, user)
    ensures HasVerifiedPrimary(t.rows, user) || (op.DeleteEmail? && !HasRow(t.rows, user))
  {
    var p :| p in s.rows && s.rows[p].user == user && s.rows[p].verified && s.rows[p].primary;
    match op
    case Verify(pk) =>
      if s.rows[pk].user == user && CanSetVerified(cfg, s.rows, pk, s.rows[pk]) && cfg.changeEmail {
        assert t.rows[pk].verified && t.rows[pk].primary;
      } else if s.rows[pk].user == user && p == pk {
        assert t.rows[pk].verified && HasPrimary(s.rows, user);
      } else {
        assert s.rows[pk].user == user ==> HasPrimary(s.rows, user);
        assert t.rows[p] == s.rows[p];
      }
    case VerifyPending(u, email) => PendingVerifiedPrimary(cfg, s, u, email, t, user, p);
    case AddEmail(_, _) => assert p in t.rows && t.rows[p] == s.rows[p];
    case AddNewEmail(u, email) => assert p in t.rows && t.rows[p] == s.rows[p];
    case DeleteEmail(pk) =>
      if p != pk || t.rows == s.rows {
        assert t.rows[p] == s.rows[p];
      }
    case MarkAsPrimary(pk) =>
      if s.rows[pk].user == user && t.rows != s.rows {
        assert t.rows[pk].verified && t.rows[pk].primary;
      } else {
        assert t.rows[p] == s.rows[p];
      }
    case SyncEmail(_, _) => assert p in t.rows && t.rows[p] == s.rows[p];
    case SetupUserEmail(u, addresses) =>
      SetUpStays(cfg, s, u, addresses, t);
      assert p in t.rows && t.rows[p] == s.rows[p];
  }

  /** With email-only login nobody deletes their last address. */
  lemma NeverStranded(cfg: Settings, s: Tables, pk: Pk, t: Tables, user: User)
    requires cfg.loginByEmailOnly && StepOk(cfg, s, DeleteEmail(pk), t) && HasRow(s.rows, user)
    ensures HasRow(t.rows, user)
  {
    var p :| p in s.rows && s.rows[p].user == user;
    if p in t.rows {
      assert t.rows[p].user == user;
    } else {
      assert HasRow(s.rows - {pk}, user);
    }
  }

  // ---------- Changing the address during signup ----------

  /** `EmailVerificationProcess.change_to` replaces the pending address and then writes
      `user.email` without making it primary: right if and only if no other primary exists. (When
      the address cannot be added, the exception comes before that write.) */
  lemma ChangeToSyncedIff(cfg: Settings, s: Tables, user: User, email: Email, t: Tables)
    requires Good(cfg, s.rows, s.emails) && StepOk(cfg, s, AddNewEmail(user, email), t)
    requires FreeToAdd(s.rows, user, email)
    ensures Synced(t.rows, t.emails[user := email])
      <==> (HasPrimary(s.rows, user) ==> LosesPrimary(cfg, s.rows, AddNewEmail(user, email), user))
  {
    StepKeeps(cfg, s.rows, s.emails, AddNewEmail(user, email), t.rows, t.emails);
    AddedIsThere(cfg, s, user, email, t);
    if HasPrimary(s.rows, user) {
      PrimaryLostIff(cfg, s, AddNewEmail(user, email), t, user);
    }
    if HasPrimary(t.rows, user) {
      var p :| p in t.rows && t.rows[p].user == user && t.rows[p].primary;
      var q :| q in t.rows && t.rows[q] == Row(user, email, false, false);
      assert !Clash(cfg, t.rows[p], t.rows[q]);
      assert UserEmail(t.emails[user := email], user) == email;
    }
  }

  lemma AddedIsThere(cfg: Settings, s: Tables, user: User, email: Email, t: Tables)
    requires StepOk(cfg, s, AddNewEmail(user, email), t) && FreeToAdd(s.rows, user, email)
    ensures exists q :: q in t.rows && t.rows[q] == Row(user, email, false, false)
    ensures HasPrimary(t.rows, user) ==> HasPrimary(s.rows, user)
  {
    var row := Row(user, email, false, false);
    if NoNew(s.rows, user) {
      var pk :| Inserted(s.rows, pk, row, t.rows);
      assert t.rows[pk] == row;
    } else {
      var last, pk :| IsNew(s.rows, user, last) && Inserted(s.rows - {last}, pk, row, t.rows)
                      && AfterRemoval(s.rows - {last}, s.emails, s.rows[last], t.emails);
      assert t.rows[pk] == row;
    }
  }
}
