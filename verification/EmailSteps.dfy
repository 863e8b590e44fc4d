/** What each operation does to the two tables, row by row. */
module EmailSteps {
  import opened EmailTables

  /** A key that the database may give out next. */
  ghost predicate Above(rows: Rows, pk: Pk) {
    forall q | q in rows :: q < pk
  }

  /** `row` comes out verified under `pk`. In change-email mode the user's other rows are gone and it is
      primary; otherwise every other row is as it was, and it becomes primary exactly when the user had
      no primary. `user.email` moves exactly when it becomes the primary that way. */
  ghost predicate ComesOutVerified(cfg: Settings, rows: Rows, emails: Emails, pk: Pk, row: Row,
                                   rows': Rows, emails': Emails) {
    var first := forall p | p in rows && rows[p].user == row.user :: !rows[p].primary;
    && pk in rows' && rows'[pk] == Row(row.user, row.email, true, row.primary || first || cfg.changeEmail)
    && (forall p | p in rows' && p != pk :: p in rows && rows'[p] == rows[p])
    && (forall p | p in rows && p != pk :: p in rows' <==> !(cfg.changeEmail && rows[p].user == row.user))
    && emails' == if cfg.changeEmail || first then emails[row.user := row.email] else emails
  }

  lemma VerifiedComesOut(cfg: Settings, rows: Rows, emails: Emails, pk: Pk, row: Row)
    requires if pk in rows then rows[pk] == row else !row.primary
    ensures ComesOutVerified(cfg, rows, emails, pk, row, Verified(cfg, rows, pk, row),
                             VerifiedEmails(cfg, rows, emails, row))
  {
    var rows' := Verified(cfg, rows, pk, row);
    if !cfg.changeEmail && !HasPrimary(rows, row.user) {
      forall p | p in rows && p != pk
        ensures rows'[p] == rows[p]
      {
      }
    }
  }

  /** A verification verifies the address, unless addresses are unique and somebody has it verified. */
  lemma VerifyMeans(cfg: Settings, rows: Rows, emails: Emails, pk: Pk, rows': Rows, emails': Emails)
    requires pk in rows && Step(cfg, rows, emails, Verify(pk), rows', emails')
    ensures var row := rows[pk];
      if !row.verified && cfg.uniqueEmail
         && exists p :: p in rows && p != pk && rows[p].verified && rows[p].email == row.email
      then rows' == rows && emails' == emails
      else ComesOutVerified(cfg, rows, emails, pk, row, rows', emails')
  {
    hide Verified, VerifiedEmails, ComesOutVerified;
    VerifiedComesOut(cfg, rows, emails, pk, rows[pk]);
  }

  /** The same for an address that only a code process knows; it gets a row of its own. */
  lemma VerifyPendingMeans(cfg: Settings, rows: Rows, emails: Emails, user: User, email: Email,
                           rows': Rows, emails': Emails)
    requires Step(cfg, rows, emails, VerifyPending(user, email), rows', emails')
    ensures
      if cfg.uniqueEmail && exists p :: p in rows && rows[p].verified && rows[p].email == email
      then rows' == rows && emails' == emails
      else exists pk: Pk :: Above(rows, pk)
                        && ComesOutVerified(cfg, rows, emails, pk, Row(user, email, false, false), rows', emails')
  {
    hide Verified, VerifiedEmails, ComesOutVerified;
    var row := Row(user, email, false, false);
    var pk :| pk !in rows && (forall q | q in rows :: q < pk) &&
      if CanSetVerified(cfg, rows, pk, row)
      then rows' == Verified(cfg, rows, pk, row) && emails' == VerifiedEmails(cfg, rows, emails, row)
      else rows' == rows && emails' == emails;
    VerifiedComesOut(cfg, rows, emails, pk, row);
  }

  /** An address becomes the primary if it is verified or none of the user's is. Then it is the one
      primary, nothing else about the rows changes, and `user.email` is that address. */
  lemma MarkMeans(cfg: Settings, rows: Rows, emails: Emails, pk: Pk, rows': Rows, emails': Emails)
    requires pk in rows && Step(cfg, rows, emails, MarkAsPrimary(pk), rows', emails')
    ensures var row := rows[pk];
      if !row.verified && exists p :: p in rows && rows[p].user == row.user && rows[p].verified
      then rows' == rows && emails' == emails
      else
        && rows'.Keys == rows.Keys && emails' == emails[row.user := row.email]
        && forall p | p in rows ::
             rows'[p] == if rows[p].user != row.user then rows[p] else rows[p].(primary := p == pk)
  {
  }

  /** `user.email` once `row` is gone: if it was that address, it is now another one of the user, a
      verified one if there is any, or nothing. */
  ghost predicate Repaired(rows: Rows, emails: Emails, row: Row, emails': Emails) {
    && (forall u | u != row.user :: UserEmail(emails', u) == UserEmail(emails, u))
    && var email := UserEmail(emails', row.user);
       if UserEmail(emails, row.user) != row.email then email == UserEmail(emails, row.user)
       else if forall p | p in rows :: rows[p].user != row.user then email == ""
       else exists p :: p in rows && rows[p].user == row.user && rows[p].email == email
                        && (rows[p].verified || forall q | q in rows && rows[q].user == row.user :: !rows[q].verified)
  }

  lemma RemovalRepairs(rows: Rows, emails: Emails, row: Row, emails': Emails)
    requires AfterRemoval(rows, emails, row, emails')
    ensures Repaired(rows, emails, row, emails')
  {
    if UserEmail(emails, row.user) == row.email {
      var alt :| emails' == emails[row.user := alt] && Alternative(rows, row.user, alt);
    }
  }

  /** The sole address goes unless people log in by email only; of several addresses any but the
      primary goes. */
  lemma DeleteMeans(cfg: Settings, rows: Rows, emails: Emails, pk: Pk, rows': Rows, emails': Emails)
    requires pk in rows && Step(cfg, rows, emails, DeleteEmail(pk), rows', emails')
    ensures var row := rows[pk];
      var sole := forall p | p in rows && rows[p].user == row.user :: p == pk;
      if (if sole then cfg.loginByEmailOnly else row.primary) then rows' == rows && emails' == emails
      else rows' == rows - {pk} && Repaired(rows', emails, row, emails')
  {
    SoleIff(rows, pk);
    if rows' != rows || emails' != emails {
      RemovalRepairs(rows', emails, rows[pk], emails');
    }
  }

  lemma SoleIff(rows: Rows, pk: Pk)
    requires pk in rows
    ensures HasRow(rows - {pk}, rows[pk].user) <==> exists p :: p in rows && rows[p].user == rows[pk].user && p != pk
  {
    if p :| p in rows && rows[p].user == rows[pk].user && p != pk {
      assert p in rows - {pk} && (rows - {pk})[p].user == rows[pk].user;
    }
  }

  /** Adding or syncing an address: one unverified row more, unless the account has the address. */
  lemma AddMeans(cfg: Settings, rows: Rows, emails: Emails, op: Op, rows': Rows, emails': Emails)
    requires (op.AddEmail? || op.SyncEmail?) && Step(cfg, rows, emails, op, rows', emails')
    ensures emails' == emails
    ensures
      if exists p :: p in rows && rows[p].user == op.user && rows[p].email == op.email then rows' == rows
      else exists pk: Pk :: Above(rows, pk) && rows' == rows[pk := Row(op.user, op.email, false, false)]
  {
    if !HasEmail(rows, op.user, op.email) {
      var pk: Pk :| Inserted(rows, pk, Row(op.user, op.email, false, false), rows');
      assert Above(rows, pk);
    }
  }

  /** The latest unverified address of the user. */
  ghost predicate Latest(rows: Rows, user: User, last: Pk) {
    && last in rows && rows[last].user == user && !rows[last].verified
    && forall q | q in rows && rows[q].user == user && !rows[q].verified :: q <= last
  }

  /** A new address takes the place of the latest unverified one, if there is one. Nothing happens when
      the account has the address in another row. */
  lemma AddNewMeans(cfg: Settings, rows: Rows, emails: Emails, user: User, email: Email, rows': Rows, emails': Emails)
    requires Step(cfg, rows, emails, AddNewEmail(user, email), rows', emails')
    ensures
      if exists p :: p in rows && rows[p].user == user && rows[p].email == email && !Latest(rows, user, p)
      then rows' == rows && emails' == emails
      else if forall p | p in rows && rows[p].user == user :: rows[p].verified
      then emails' == emails && exists pk: Pk :: Above(rows, pk) && rows' == rows[pk := Row(user, email, false, false)]
      else exists last: Pk, pk: Pk ::
             Latest(rows, user, last) && Replaced(rows, emails, last, pk, user, email, rows', emails')
  {
    hide Repaired, AfterRemoval;
    var row := Row(user, email, false, false);
    assert forall p :: Latest(rows, user, p) <==> IsNew(rows, user, p);
    if FreeToAdd(rows, user, email) {
      if NoNew(rows, user) {
        var pk: Pk :| Inserted(rows, pk, row, rows');
        assert Above(rows, pk);
      } else {
        var last: Pk, pk: Pk :| IsNew(rows, user, last) && Inserted(rows - {last}, pk, row, rows')
                                && AfterRemoval(rows - {last}, emails, rows[last], emails');
        RemovalRepairs(rows - {last}, emails, rows[last], emails');
        forall q | q in rows && q != last
          ensures q < pk
        {
          assert q in rows - {last};
        }
        assert Latest(rows, user, last) && Replaced(rows, emails, last, pk, user, email, rows', emails');
      }
    }
  }

  /** The row under `last` makes way for a new unverified one under `pk`. */
  ghost predicate Replaced(rows: Rows, emails: Emails, last: Pk, pk: Pk, user: User, email: Email,
                           rows': Rows, emails': Emails) {
    && last in rows && (forall q | q in rows && q != last :: q < pk)
    && rows' == (rows - {last})[pk := Row(user, email, false, false)]
    && Repaired(rows - {last}, emails, rows[last], emails')
  }

  ghost predicate Appended(rows: Rows, base: Pk, user: User, addresses: seq<Address>, rows': Rows) {
    && (forall p :: p in rows' <==> p in rows || base <= p < base + |addresses|)
    && (forall p | p in rows :: rows'[p] == rows[p])
    && forall p | base <= p < base + |addresses| ::
         rows'[p].user == user && rows'[p].email == addresses[p - base].email
         && rows'[p].verified == addresses[p - base].verified && rows'[p].primary == addresses[p - base].primary
  }

  /** A signup adds the addresses in their order, just as they are, and nothing else; `user.email` is
      the one that is marked as primary, if any is. */
  lemma SetUpMeans(cfg: Settings, rows: Rows, emails: Emails, user: User, addresses: seq<Address>,
                   rows': Rows, emails': Emails)
    requires Step(cfg, rows, emails, SetupUserEmail(user, addresses), rows', emails')
    ensures exists base: nat :: Above(rows, base) && Appended(rows, base, user, addresses, rows')
    ensures forall u | u != user :: UserEmail(emails', u) == UserEmail(emails, u)
    ensures (forall i | 0 <= i < |addresses| :: !addresses[i].primary) ==>
      UserEmail(emails', user) == UserEmail(emails, user)
    ensures (forall i, j | 0 <= i < j < |addresses| :: !(addresses[i].primary && addresses[j].primary)) ==>
      forall i | 0 <= i < |addresses| && addresses[i].primary :: UserEmail(emails', user) == addresses[i].email
  {
    var base: nat :| (forall q | q in rows :: q < base) && rows' == Saved(rows, user, addresses, base, |addresses|);
    SavedRows(rows, user, addresses, base, |addresses|);
    hide Saved, SetupEmail;
    assert Above(rows, base) && Appended(rows, base, user, addresses, rows');
    forall u | u != user
      ensures UserEmail(emails', u) == UserEmail(emails, u)
    {
      SetupEmailOthers(emails, user, addresses, |addresses|, u);
    }
    if forall i | 0 <= i < |addresses| :: !addresses[i].primary {
      SetupEmailNone(emails, user, addresses, |addresses|);
    }
    if forall i, j | 0 <= i < j < |addresses| :: !(addresses[i].primary && addresses[j].primary) {
      forall i | 0 <= i < |addresses| && addresses[i].primary
        ensures UserEmail(emails', user) == addresses[i].email
      {
        SetupEmailIs(emails, user, addresses, |addresses|, i);
      }
    }
  }

  lemma {:induction false} SetupEmailNone(emails: Emails, user: User, addresses: seq<Address>, n: nat)
    requires n <= |addresses| && forall i | 0 <= i < |addresses| :: !addresses[i].primary
    ensures SetupEmail(emails, user, addresses, n) == emails
  {
    if n > 0 {
      SetupEmailNone(emails, user, addresses, n - 1);
    }
  }
}
