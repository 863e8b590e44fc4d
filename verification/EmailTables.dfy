/** The email address table and `user.email`, as values: the database constraints, and what each
    operation makes of the tables. */
module EmailTables {
  import opened Options

  type User = nat
  type Pk = nat
  type Email = string

  datatype Row = Row(user: User, email: Email, verified: bool, primary: bool)

  datatype Settings = Settings(uniqueEmail: bool, changeEmail: bool, loginByEmailOnly: bool)

  type Rows = map<Pk, Row>
  type Emails = map<User, Email>

  function UserEmail(emails: Emails, user: User): Email {
    if user in emails then emails[user] else ""
  }

  // ---------- The constraints ----------

  /** Two rows that the unique constraints do not allow together. */
  ghost predicate Clash(cfg: Settings, a: Row, b: Row) {
    || (a.user == b.user && a.email == b.email)
    || (a.user == b.user && a.primary && b.primary)
    || (cfg.uniqueEmail && a.email == b.email && a.verified && b.verified)
  }

  ghost predicate Constraints(cfg: Settings, rows: Rows) {
    forall p, q | p in rows && q in rows && p != q :: !Clash(cfg, rows[p], rows[q])
  }

  /** Writing `row` under `pk` violates no constraint. */
  ghost predicate Accepts(cfg: Settings, rows: Rows, pk: Pk, row: Row) {
    forall q | q in rows && q != pk :: !Clash(cfg, rows[q], row)
  }

  /** The denormalised `user.email` is the primary's email whenever there is a primary. */
  ghost predicate Synced(rows: Rows, emails: Emails) {
    forall p | p in rows && rows[p].primary :: UserEmail(emails, rows[p].user) == rows[p].email
  }

  ghost predicate Good(cfg: Settings, rows: Rows, emails: Emails) {
    Constraints(cfg, rows) && Synced(rows, emails)
  }

  // ---------- Queries ----------

  ghost predicate HasRow(rows: Rows, user: User) {
    exists p :: p in rows && rows[p].user == user
  }

  ghost predicate HasPrimary(rows: Rows, user: User) {
    exists p :: p in rows && rows[p].user == user && rows[p].primary
  }

  ghost predicate HasVerified(rows: Rows, user: User) {
    exists p :: p in rows && rows[p].user == user && rows[p].verified
  }

  ghost predicate HasVerifiedPrimary(rows: Rows, user: User) {
    exists p :: p in rows && rows[p].user == user && rows[p].verified && rows[p].primary
  }

  ghost predicate HasEmail(rows: Rows, user: User, email: Email) {
    exists p :: p in rows && rows[p].user == user && rows[p].email == email
  }

  ghost predicate VerifiedElsewhere(rows: Rows, pk: Pk, email: Email) {
    exists p :: p in rows && p != pk && rows[p].verified && rows[p].email == email
  }

  /** The address the user is changing to: the latest unverified one. */
  ghost predicate IsNew(rows: Rows, user: User, pk: Pk) {
    && pk in rows && rows[pk].user == user && !rows[pk].verified
    && forall q | q in rows && rows[q].user == user && !rows[q].verified :: q <= pk
  }

  ghost predicate NoNew(rows: Rows, user: User) {
    forall q | q in rows && rows[q].user == user :: rows[q].verified
  }

  // ---------- What the operations make of the tables ----------

  ghost function Demoted(rows: Rows, user: User): (r: Rows)
    ensures r.Keys == rows.Keys
  {
    map p | p in rows :: if rows[p].user == user then rows[p].(primary := false) else rows[p]
  }

  /** `row` becomes its user's one primary. */
  ghost function Promoted(rows: Rows, pk: Pk, row: Row): Rows {
    Demoted(rows, row.user)[pk := row.(primary := true)]
  }

  ghost predicate CanSetVerified(cfg: Settings, rows: Rows, pk: Pk, row: Row) {
    row.verified || !cfg.uniqueEmail || !VerifiedElsewhere(rows, pk, row.email)
  }

  /** A successful verification: in change-email mode it leaves the user this one row. */
  ghost function Verified(cfg: Settings, rows: Rows, pk: Pk, row: Row): Rows {
    var v := row.(verified := true);
    if cfg.changeEmail then (map p | p in rows && rows[p].user != row.user :: rows[p])[pk := v.(primary := true)]
    else if HasPrimary(rows, row.user) then rows[pk := v]
    else Promoted(rows, pk, v)
  }

  ghost function VerifiedEmails(cfg: Settings, rows: Rows, emails: Emails, row: Row): Emails {
    if cfg.changeEmail || !HasPrimary(rows, row.user) then emails[row.user := row.email] else emails
  }

  /** `user.email` after `row` was removed from `rows`: another address, verified if possible. */
  ghost predicate AfterRemoval(rows: Rows, emails: Emails, row: Row, emails': Emails) {
    if UserEmail(emails, row.user) != row.email then emails' == emails
    else exists alt :: emails' == emails[row.user := alt] && Alternative(rows, row.user, alt)
  }

  ghost predicate Alternative(rows: Rows, user: User, alt: Email) {
    if HasRow(rows, user)
    then exists p :: p in rows && rows[p].user == user && rows[p].email == alt
                     && (HasVerified(rows, user) ==> rows[p].verified)
    else alt == ""
  }

  ghost predicate CanDelete(cfg: Settings, rows: Rows, pk: Pk)
    requires pk in rows
  {
    var hasOther := HasRow(rows - {pk}, rows[pk].user);
    if rows[pk].primary then !hasOther && !cfg.loginByEmailOnly else hasOther || !cfg.loginByEmailOnly
  }

  ghost predicate CanMarkAsPrimary(rows: Rows, row: Row) {
    row.verified || !HasVerified(rows, row.user)
  }

  /** One address of a signup. */
  datatype Address = Address(email: Email, verified: bool, primary: bool)

  // ---------- Every operation, as a relation ----------

  datatype Op =
    | Verify(pk: Pk)                             // of a stored address
    | VerifyPending(user: User, email: Email)    // of one that only a code process knows
    | AddEmail(user: User, email: Email)
    | AddNewEmail(user: User, email: Email)
    | DeleteEmail(pk: Pk)
    | MarkAsPrimary(pk: Pk)
    | SyncEmail(user: User, email: Email)
    | SetupUserEmail(user: User, addresses: seq<Address>)

  /** The account does not have the address, except as the pending one. */
  ghost predicate FreeToAdd(rows: Rows, user: User, email: Email) {
    forall p | p in rows && rows[p].user == user && rows[p].email == email :: IsNew(rows, user, p)
  }

  /** What the callers guarantee: rows are loaded, a code process knows only addresses that are not
      stored, and a user is set up once, with clean addresses. */
  ghost predicate Allowed(cfg: Settings, rows: Rows, op: Op) {
    match op
    case Verify(pk) => pk in rows
    case VerifyPending(user, email) => !HasEmail(rows, user, email)
    case AddEmail(_, _) => true
    case AddNewEmail(_, _) => true
    case DeleteEmail(pk) => pk in rows
    case MarkAsPrimary(pk) => pk in rows
    case SyncEmail(_, _) => true
    case SetupUserEmail(user, addresses) => !HasRow(rows, user) && CleanFor(cfg, rows, addresses)
  }

  /** What `cleanup_email_addresses` hands over. */
  ghost predicate CleanFor(cfg: Settings, rows: Rows, addresses: seq<Address>) {
    && (forall i, j | 0 <= i < j < |addresses| :: addresses[i].email != addresses[j].email)
    && (forall i, j | 0 <= i < j < |addresses| :: !(addresses[i].primary && addresses[j].primary))
    && (cfg.uniqueEmail ==> forall i, p | 0 <= i < |addresses| && p in rows ::
         !(addresses[i].verified && rows[p].verified && addresses[i].email == rows[p].email))
  }

  ghost predicate Inserted(rows: Rows, pk: Pk, row: Row, rows': Rows) {
    pk !in rows && (forall q | q in rows :: q < pk) && rows' == rows[pk := row]
  }

  /** `get_or_create`. */
  ghost predicate Ensured(rows: Rows, user: User, email: Email, rows': Rows) {
    if HasEmail(rows, user, email) then rows' == rows
    else exists pk :: Inserted(rows, pk, Row(user, email, false, false), rows')
  }

  function RowOf(user: User, a: Address): Row {
    Row(user, a.email, a.verified, a.primary)
  }

  /** The first `n` addresses of a signup, saved in order under fresh keys. */
  ghost function Saved(rows: Rows, user: User, addresses: seq<Address>, base: Pk, n: nat): Rows
    requires n <= |addresses|
  {
    if n == 0 then rows
    else Saved(rows, user, addresses, base, n - 1)[base + n - 1 := RowOf(user, addresses[n - 1])]
  }

  ghost function SetupEmail(emails: Emails, user: User, addresses: seq<Address>, n: nat): Emails
    requires n <= |addresses|
  {
    if n == 0 then emails
    else if addresses[n - 1].primary then emails[user := addresses[n - 1].email]
    else SetupEmail(emails, user, addresses, n - 1)
  }

  ghost predicate Step(cfg: Settings, rows: Rows, emails: Emails, op: Op, rows': Rows, emails': Emails) {
    match op
    case Verify(pk) =>
      pk in rows &&
      if CanSetVerified(cfg, rows, pk, rows[pk])
      then rows' == Verified(cfg, rows, pk, rows[pk]) && emails' == VerifiedEmails(cfg, rows, emails, rows[pk])
      else rows' == rows && emails' == emails
    case VerifyPending(user, email) =>
      exists pk :: pk !in rows && (forall q | q in rows :: q < pk) &&
        var row := Row(user, email, false, false);
        if CanSetVerified(cfg, rows, pk, row)
        then rows' == Verified(cfg, rows, pk, row) && emails' == VerifiedEmails(cfg, rows, emails, row)
        else rows' == rows && emails' == emails
    case AddEmail(user, email) => emails' == emails && Ensured(rows, user, email, rows')
    case AddNewEmail(user, email) =>
      if !FreeToAdd(rows, user, email)
      then rows' == rows && emails' == emails
      else if NoNew(rows, user)
      then emails' == emails && exists pk :: Inserted(rows, pk, Row(user, email, false, false), rows')
      else exists last, pk ::
        IsNew(rows, user, last) && Inserted(rows - {last}, pk, Row(user, email, false, false), rows')
                              && AfterRemoval(rows - {last}, emails, rows[last], emails')
    case DeleteEmail(pk) =>
      pk in rows &&
      if CanDelete(cfg, rows, pk) then rows' == rows - {pk} && AfterRemoval(rows', emails, rows[pk], emails')
      else rows' == rows && emails' == emails
    case MarkAsPrimary(pk) =>
      pk in rows &&
      if CanMarkAsPrimary(rows, rows[pk])
      then rows' == Promoted(rows, pk, rows[pk]) && emails' == emails[rows[pk].user := rows[pk].email]
      else rows' == rows && emails' == emails
    case SyncEmail(user, email) => emails' == emails && Ensured(rows, user, email, rows')
    case SetupUserEmail(user, addresses) =>
      && (exists base: nat ::
           (forall q | q in rows :: q < base) && rows' == Saved(rows, user, addresses, base, |addresses|))
      && forall u :: UserEmail(emails', u) == UserEmail(SetupEmail(emails, user, addresses, |addresses|), u)
  }

  // ---------- Every write respects the constraints ----------

  lemma WriteKeeps(cfg: Settings, rows: Rows, pk: Pk, row: Row)
    requires Constraints(cfg, rows) && Accepts(cfg, rows, pk, row)
    ensures Constraints(cfg, rows[pk := row])
  {
  }

  lemma DemotedKeeps(cfg: Settings, rows: Rows, user: User)
    requires Constraints(cfg, rows)
    ensures Constraints(cfg, Demoted(rows, user)) && !HasPrimary(Demoted(rows, user), user)
  {
  }

  /** A row that may be written as non-primary may be written as the one primary. */
  lemma PromotedKeeps(cfg: Settings, rows: Rows, pk: Pk, row: Row)
    requires Constraints(cfg, rows) && Accepts(cfg, rows, pk, row.(primary := false))
    ensures Accepts(cfg, Demoted(rows, row.user), pk, row.(primary := true))
    ensures Constraints(cfg, Promoted(rows, pk, row))
  {
    DemotedKeeps(cfg, rows, row.user);
    var d, r := Demoted(rows, row.user), row.(primary := true);
    forall q | q in d && q != pk
      ensures !Clash(cfg, d[q], r)
    {
      assert !Clash(cfg, rows[q], row.(primary := false));
    }
    WriteKeeps(cfg, d, pk, r);
  }

  lemma PromotedSynced(cfg: Settings, rows: Rows, emails: Emails, pk: Pk, row: Row)
    requires Synced(rows, emails)
    requires pk in rows ==> rows[pk].user == row.user
    ensures Synced(Promoted(rows, pk, row), emails[row.user := row.email])
  {
  }

  lemma VerifyAccepts(cfg: Settings, rows: Rows, pk: Pk, row: Row)
    requires Accepts(cfg, rows, pk, row) && CanSetVerified(cfg, rows, pk, row)
    ensures Accepts(cfg, rows, pk, row.(verified := true))
  {
    forall q | q in rows && q != pk
      ensures !Clash(cfg, rows[q], row.(verified := true))
    {
      assert !Clash(cfg, rows[q], row);
    }
  }

  lemma VerifiedKeeps(cfg: Settings, rows: Rows, emails: Emails, pk: Pk, row: Row)
    requires Good(cfg, rows, emails) && Accepts(cfg, rows, pk, row) && CanSetVerified(cfg, rows, pk, row)
    requires if pk in rows then rows[pk] == row else !row.primary
    ensures Good(cfg, Verified(cfg, rows, pk, row), VerifiedEmails(cfg, rows, emails, row))
  {
    var v := row.(verified := true);
    VerifyAccepts(cfg, rows, pk, row);
    if cfg.changeEmail {
      var others := map p | p in rows && rows[p].user != row.user :: rows[p];
      forall q | q in others && q != pk
        ensures !Clash(cfg, others[q], v.(primary := true))
      {
        assert !Clash(cfg, rows[q], v);
      }
      WriteKeeps(cfg, others, pk, v.(primary := true));
    } else if HasPrimary(rows, row.user) {
      WriteKeeps(cfg, rows, pk, v);
    } else {
      PromotedKeeps(cfg, rows, pk, v);
      PromotedSynced(cfg, rows, emails, pk, v);
    }
  }

  /** Removing a row never unsyncs `user.email`: only the primary's removal can change it. */
  lemma RemovedKeeps(cfg: Settings, rows: Rows, emails: Emails, pk: Pk, emails': Emails)
    requires Good(cfg, rows, emails) && pk in rows && AfterRemoval(rows - {pk}, emails, rows[pk], emails')
    ensures Good(cfg, rows - {pk}, emails')
  {
    var rows' := rows - {pk};
    forall p | p in rows' && rows'[p].primary
      ensures UserEmail(emails', rows'[p].user) == rows'[p].email
    {
      assert !Clash(cfg, rows[p], rows[pk]);
    }
  }

  lemma InsertedKeeps(cfg: Settings, rows: Rows, emails: Emails, pk: Pk, row: Row, rows': Rows)
    requires Good(cfg, rows, emails) && Inserted(rows, pk, row, rows')
    requires !row.primary && !row.verified && !HasEmail(rows, row.user, row.email)
    ensures Good(cfg, rows', emails)
  {
  }

  lemma {:induction false} SavedRows(rows: Rows, user: User, addresses: seq<Address>, base: Pk, n: nat)
    requires n <= |addresses| && forall q | q in rows :: q < base
    ensures forall p :: p in Saved(rows, user, addresses, base, n) <==> p in rows || base <= p < base + n
    ensures forall p | p in rows :: Saved(rows, user, addresses, base, n)[p] == rows[p]
    ensures forall p | base <= p < base + n ::
      Saved(rows, user, addresses, base, n)[p] == RowOf(user, addresses[p - base])
  {
    if n > 0 {
      SavedRows(rows, user, addresses, base, n - 1);
    }
  }

  /** The next save of a signup violates nothing, so the order of the saves does not matter. */
  lemma SavedAccepts(cfg: Settings, rows: Rows, user: User, addresses: seq<Address>, base: Pk, n: nat)
    requires n < |addresses| && (forall q | q in rows :: q < base)
    requires !HasRow(rows, user) && CleanFor(cfg, rows, addresses)
    ensures Accepts(cfg, Saved(rows, user, addresses, base, n), base + n, RowOf(user, addresses[n]))
  {
    var saved := Saved(rows, user, addresses, base, n);
    SavedRows(rows, user, addresses, base, n);
    forall q | q in saved && q != base + n
      ensures !Clash(cfg, saved[q], RowOf(user, addresses[n]))
    {
      if q >= base {
        assert saved[q] == RowOf(user, addresses[q - base]);
      }
    }
  }

  lemma {:induction false} SavedKeeps(cfg: Settings, rows: Rows, user: User, addresses: seq<Address>, base: Pk, n: nat)
    requires n <= |addresses| && Constraints(cfg, rows) && (forall q | q in rows :: q < base)
    requires !HasRow(rows, user) && CleanFor(cfg, rows, addresses)
    ensures Constraints(cfg, Saved(rows, user, addresses, base, n))
  {
    if n > 0 {
      SavedKeeps(cfg, rows, user, addresses, base, n - 1);
      SavedAccepts(cfg, rows, user, addresses, base, n - 1);
      WriteKeeps(cfg, Saved(rows, user, addresses, base, n - 1), base + n - 1, RowOf(user, addresses[n - 1]));
    }
  }

  lemma {:induction false} SetupEmailIs(emails: Emails, user: User, addresses: seq<Address>, n: nat, i: nat)
    requires i < n <= |addresses| && addresses[i].primary
    requires forall j, k | 0 <= j < k < |addresses| :: !(addresses[j].primary && addresses[k].primary)
    ensures SetupEmail(emails, user, addresses, n) == emails[user := addresses[i].email]
  {
    if i < n - 1 {
      SetupEmailIs(emails, user, addresses, n - 1, i);
    }
  }

  lemma {:induction false} SetupEmailOthers(emails: Emails, user: User, addresses: seq<Address>, n: nat, other: User)
    requires n <= |addresses| && other != user
    ensures UserEmail(SetupEmail(emails, user, addresses, n), other) == UserEmail(emails, other)
  {
    if n > 0 {
      SetupEmailOthers(emails, user, addresses, n - 1, other);
    }
  }

  lemma SetUpKeeps(cfg: Settings, rows: Rows, emails: Emails, user: User, addresses: seq<Address>, rows': Rows,
                   emails': Emails)
    requires Good(cfg, rows, emails) && Allowed(cfg, rows, SetupUserEmail(user, addresses))
    requires Step(cfg, rows, emails, SetupUserEmail(user, addresses), rows', emails')
    ensures Good(cfg, rows', emails')
  {
    var base: nat :| (forall q | q in rows :: q < base) && rows' == Saved(rows, user, addresses, base, |addresses|);
    SavedKeeps(cfg, rows, user, addresses, base, |addresses|);
    SavedRows(rows, user, addresses, base, |addresses|);
    hide Saved, SetupEmail;
    forall p | p in rows' && rows'[p].primary
      ensures UserEmail(emails', rows'[p].user) == rows'[p].email
    {
      if p in rows {
        SetupEmailOthers(emails, user, addresses, |addresses|, rows[p].user);
      } else {
        SetupEmailIs(emails, user, addresses, |addresses|, p - base);
      }
    }
  }

  // ---------- Between the last two writes ----------

  /** Once `set_as_primary` has saved the row, `user.email` is in step if and only if it already was
      that address: otherwise it lags until it is written. */
  lemma PrimaryLagIff(rows: Rows, emails: Emails, pk: Pk, row: Row)
    requires Synced(rows, emails) && (pk in rows ==> rows[pk].user == row.user)
    ensures Synced(Promoted(rows, pk, row), emails) <==> UserEmail(emails, row.user) == row.email
  {
    assert Promoted(rows, pk, row)[pk].primary;
  }

  /** After the first `n` saves of `setup_user_email`, `user.email` is in step if and only if no primary
      of another email was among them. */
  lemma SignupLagIff(rows: Rows, emails: Emails, user: User, addresses: seq<Address>, base: Pk, n: nat)
    requires n <= |addresses| && (forall q | q in rows :: q < base) && !HasRow(rows, user) && Synced(rows, emails)
    ensures Synced(Saved(rows, user, addresses, base, n), emails) <==>
      forall i | 0 <= i < n && addresses[i].primary :: UserEmail(emails, user) == addresses[i].email
  {
    hide Saved;
    var saved := Saved(rows, user, addresses, base, n);
    SavedRows(rows, user, addresses, base, n);
    if Synced(saved, emails) {
      forall i | 0 <= i < n && addresses[i].primary
        ensures UserEmail(emails, user) == addresses[i].email
      {
        assert saved[base + i] == RowOf(user, addresses[i]);
      }
    }
    if forall i | 0 <= i < n && addresses[i].primary :: UserEmail(emails, user) == addresses[i].email {
      forall p | p in saved && saved[p].primary
        ensures UserEmail(emails, saved[p].user) == saved[p].email
      {
        if p >= base {
          assert saved[p] == RowOf(user, addresses[p - base]);
        }
      }
    }
  }

  /** Every operation keeps the constraints and the denormalised email. */
  lemma StepKeeps(cfg: Settings, rows: Rows, emails: Emails, op: Op, rows': Rows, emails': Emails)
    requires Good(cfg, rows, emails) && Allowed(cfg, rows, op) && Step(cfg, rows, emails, op, rows', emails')
    ensures Good(cfg, rows', emails')
  {
    match op
    case Verify(pk) =>
      if CanSetVerified(cfg, rows, pk, rows[pk]) {
        VerifiedKeeps(cfg, rows, emails, pk, rows[pk]);
      }
    case VerifyPending(user, email) =>
      var row := Row(user, email, false, false);
      var pk :| pk !in rows && (forall q | q in rows :: q < pk) &&
        if CanSetVerified(cfg, rows, pk, row)
        then rows' == Verified(cfg, rows, pk, row) && emails' == VerifiedEmails(cfg, rows, emails, row)
        else rows' == rows && emails' == emails;
      if CanSetVerified(cfg, rows, pk, row) {
        VerifiedKeeps(cfg, rows, emails, pk, row);
      }
    case AddEmail(user, email) =>
      if !HasEmail(rows, user, email) {
        var pk :| Inserted(rows, pk, Row(user, email, false, false), rows');
        InsertedKeeps(cfg, rows, emails, pk, Row(user, email, false, false), rows');
      }
    case AddNewEmail(user, email) =>
      var row := Row(user, email, false, false);
      if !FreeToAdd(rows, user, email) {
      } else if NoNew(rows, user) {
        var pk :| Inserted(rows, pk, row, rows');
        InsertedKeeps(cfg, rows, emails, pk, row, rows');
      } else {
        var last, pk :| IsNew(rows, user, last) && Inserted(rows - {last}, pk, row, rows')
                        && AfterRemoval(rows - {last}, emails, rows[last], emails');
        RemovedKeeps(cfg, rows, emails, last, emails');
        InsertedKeeps(cfg, rows - {last}, emails', pk, row, rows');
      }
    case DeleteEmail(pk) =>
      if CanDelete(cfg, rows, pk) {
        RemovedKeeps(cfg, rows, emails, pk, emails');
      }
    case MarkAsPrimary(pk) =>
      if CanMarkAsPrimary(rows, rows[pk]) {
        assert Accepts(cfg, rows, pk, rows[pk].(primary := false)) by {
          forall q | q in rows && q != pk
            ensures !Clash(cfg, rows[q], rows[pk].(primary := false))
          {
            assert !Clash(cfg, rows[q], rows[pk]);
          }
        }
        PromotedKeeps(cfg, rows, pk, rows[pk]);
        PromotedSynced(cfg, rows, emails, pk, rows[pk]);
      }
    case SyncEmail(user, email) =>
      if !HasEmail(rows, user, email) {
        var pk :| Inserted(rows, pk, Row(user, email, false, false), rows');
        InsertedKeeps(cfg, rows, emails, pk, Row(user, email, false, false), rows');
      }
    case SetupUserEmail(user, addresses) =>
      SetUpKeeps(cfg, rows, emails, user, addresses, rows', emails');
  }
}
