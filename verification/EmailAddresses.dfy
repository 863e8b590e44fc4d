/** `EmailAddress` objects, their manager and the flows that write them. An object is a copy of a
    row; a save that would violate a constraint is ruled out by `Save`'s precondition. */
module EmailAddresses {
  import opened Options
  import opened EmailTables
  import opened EmailSteps

  class Database {
    const cfg: Settings
    var rows: Rows
    var emails: Emails
    var nextPk: Pk

    ghost predicate Valid()
      reads this
    {
      Constraints(cfg, rows) && forall p | p in rows :: p < nextPk
    }

    /** Inserts or updates: the unique constraints must hold of every write, not only at the end. */
    method Save(a: EmailAddress)
      requires Valid() && a.InRange(this)
      requires Accepts(cfg, rows, a.Target(this), a.AsRow())
      modifies this`rows, this`nextPk, a`pk
      ensures Valid() && a.pk == Some(old(a.Target(this))) && rows == old(rows)[a.pk.value := a.AsRow()]
      ensures a.InRange(this) && nextPk == old(nextPk) + if old(a.pk).None? then 1 else 0
    {
      if a.pk.None? {
        a.pk := Some(nextPk);
        nextPk := nextPk + 1;
      }
      WriteKeeps(cfg, rows, a.pk.value, a.AsRow());
      rows := rows[a.pk.value := a.AsRow()];
    }

    method Delete(pk: Pk)
      requires Valid()
      modifies this`rows
      ensures Valid() && rows == old(rows) - {pk}
    {
      rows := rows - {pk};
    }

    /** `user_email(user, email, commit=True)`. */
    method SetUserEmail(user: User, email: Email)
      modifies this`emails
      ensures emails == old(emails)[user := email]
    {
      emails := emails[user := email];
    }

    /** A transaction is rolled back. */
    method Restore(rows: Rows, emails: Emails)
      requires Constraints(cfg, rows) && forall p | p in rows :: p < nextPk
      modifies this`rows, this`emails
      ensures Valid() && this.rows == rows && this.emails == emails
    {
      this.rows, this.emails := rows, emails;
    }

    method Load(pk: Pk) returns (a: EmailAddress)
      requires pk in rows
      ensures fresh(a) && a.Loaded(this) && a.pk == Some(pk)
    {
      a := new EmailAddress(Some(pk), rows[pk]);
    }

    method GetPrimary(user: User) returns (a: EmailAddress?)
      ensures a == null <==> forall p | p in rows && rows[p].user == user :: !rows[p].primary
      ensures a != null ==> fresh(a) && a.Loaded(this) && a.pk.Some? && a.user == user && a.primary
    {
      if p :| p in rows && rows[p].user == user && rows[p].primary {
        a := Load(p);
      } else {
        a := null;
      }
    }

    /** `get_new`: the unverified address with the largest key. */
    method GetNew(user: User) returns (a: EmailAddress?)
      ensures a == null <==> forall p | p in rows && rows[p].user == user :: rows[p].verified
      ensures a != null ==>
        && fresh(a) && a.Loaded(this) && a.pk.Some? && a.user == user && !a.verified
        && forall p | p in rows && rows[p].user == user && !rows[p].verified :: p <= a.pk.value
    {
      var pending := set p | p in rows && rows[p].user == user && !rows[p].verified;
      if pending == {} {
        assert forall q | q in rows && rows[q].user == user && !rows[q].verified :: q in pending;
        return null;
      }
      var best :| best in pending;
      var rest := pending - {best};
      while rest != {}
        invariant best in pending && rest <= pending
        invariant forall q | q in pending && q !in rest :: q <= best
        decreases rest
      {
        var q :| q in rest;
        if q > best {
          best := q;
        }
        rest := rest - {q};
      }
      forall q | q in rows && rows[q].user == user && !rows[q].verified
        ensures q <= best
      {
        assert q in pending;
      }
      a := Load(best);
    }
  }

  class EmailAddress {
    var pk: Option<Pk>
    const user: User
    const email: Email
    var verified: bool
    var primary: bool

    constructor (pk: Option<Pk>, row: Row)
      ensures this.pk == pk && AsRow() == row
    {
      this.pk, user, email, verified, primary := pk, row.user, row.email, row.verified, row.primary;
    }

    function AsRow(): Row
      reads this
    {
      Row(user, email, verified, primary)
    }

    ghost predicate InRange(db: Database)
      reads this, db
    {
      pk.Some? ==> pk.value < db.nextPk
    }

    /** Where a save would write. */
    ghost function Target(db: Database): Pk
      reads this, db
    {
      if pk.Some? then pk.value else db.nextPk
    }

    /** Freshly loaded, or a new object for an address that the account does not have. */
    ghost predicate Loaded(db: Database)
      reads this, db
    {
      if pk.Some? then pk.value in db.rows && db.rows[pk.value] == AsRow()
      else !verified && !primary && !HasEmail(db.rows, user, email)
    }

    method CanSetVerifiedNow(db: Database) returns (can: bool)
      requires db.Valid() && InRange(db)
      ensures can <==>
        || verified || !db.cfg.uniqueEmail
        || forall p | p in db.rows && Some(p) != pk && db.rows[p].verified :: db.rows[p].email != email
    {
      if verified {
        return true;
      }
      var conflict := false;
      if db.cfg.uniqueEmail {
        conflict := exists p | p in db.rows :: Some(p) != pk && db.rows[p].verified && db.rows[p].email == email;
      }
      can := !conflict;
    }

    method SetVerified(db: Database) returns (done: bool)
      requires db.Valid() && InRange(db)
      modifies this`verified
      ensures done <==>
        || old(verified) || !db.cfg.uniqueEmail
        || forall p | p in db.rows && Some(p) != pk && db.rows[p].verified :: db.rows[p].email != email
      ensures verified == (old(verified) || done)
    {
      if verified {
        return true;
      }
      var can := CanSetVerifiedNow(db);
      if can {
        verified := true;
      }
      done := verified;
    }

    /** Demotes the old primary, then saves this one, then copies the email to the user. */
    method SetAsPrimary(db: Database, conditional: bool) returns (done: bool)
      requires db.Valid() && InRange(db)
      requires Accepts(db.cfg, db.rows, Target(db), AsRow().(primary := false))
      requires Target(db) in db.rows ==> db.rows[Target(db)].user == user
      modifies this`pk, this`primary, db`rows, db`nextPk, db`emails
      ensures db.Valid() && InRange(db)
      ensures done <==> !(conditional && HasPrimary(old(db.rows), user))
      ensures !done ==> db.rows == old(db.rows) && db.emails == old(db.emails) && db.nextPk == old(db.nextPk)
                        && pk == old(pk) && primary == old(primary)
      ensures done ==> pk == Some(old(Target(db))) && primary
                       && db.rows == Promoted(old(db.rows), pk.value, old(AsRow()))
                       && db.emails == old(db.emails)[user := email]
    {
      hide Constraints, Accepts, Demoted, Clash;
      ghost var row, target, before := AsRow(), Target(db), db.rows;
      var oldPrimary := db.GetPrimary(user);
      if oldPrimary != null {
        if conditional {
          return false;
        }
        oldPrimary.primary := false;
        DemotedOne(db.cfg, before, oldPrimary.pk.value);
        db.Save(oldPrimary);
      } else {
        DemotedNone(before, user);
      }
      assert db.rows == Demoted(before, user);
      PromotedKeeps(db.cfg, before, target, row);
      primary := true;
      db.Save(this);
      db.SetUserEmail(user, email);
      done := true;
    }

    /** Deletes the row; if it was the user's email, another address takes its place. */
    method Remove(db: Database)
      requires db.Valid() && Loaded(db) && pk.Some?
      modifies db`rows, db`emails
      ensures db.Valid() && db.rows == old(db.rows) - {pk.value}
      ensures AfterRemoval(db.rows, old(db.emails), AsRow(), db.emails)
      ensures Repaired(db.rows, old(db.emails), AsRow(), db.emails)
    {
      db.Delete(pk.value);
      if UserEmail(db.emails, user) == email {
        var alt := "";
        if p :| p in db.rows && db.rows[p].user == user && db.rows[p].verified {
          alt := db.rows[p].email;
        } else if p :| p in db.rows && db.rows[p].user == user {
          alt := db.rows[p].email;
        }
        assert Alternative(db.rows, user, alt);
        db.SetUserEmail(user, alt);
      }
      RemovalRepairs(db.rows, old(db.emails), AsRow(), db.emails);
    }
  }

  lemma DemotedNone(rows: Rows, user: User)
    requires !HasPrimary(rows, user)
    ensures Demoted(rows, user) == rows
  {
    assert forall p | p in rows && rows[p].user == user :: rows[p].(primary := false) == rows[p];
  }

  /** Demoting the one primary row is demoting the user. */
  lemma DemotedOne(cfg: Settings, rows: Rows, pk: Pk)
    requires Constraints(cfg, rows) && pk in rows && rows[pk].primary
    ensures Demoted(rows, rows[pk].user) == rows[pk := rows[pk].(primary := false)]
    ensures Accepts(cfg, rows, pk, rows[pk].(primary := false))
  {
    forall q | q in rows && q != pk
      ensures !Clash(cfg, rows[q], rows[pk].(primary := false))
      ensures rows[q].user == rows[pk].user ==> !rows[q].primary
    {
      assert !Clash(cfg, rows[q], rows[pk]);
    }
    assert forall q | q in rows && rows[q].user == rows[pk].user && q != pk :: rows[q].(primary := false) == rows[q];
  }

  // ---------- Flows ----------

  /** `verify_email`. */
  method VerifyEmail(db: Database, a: EmailAddress) returns (done: bool)
    requires db.Valid() && a.InRange(db) && a.Loaded(db)
    modifies db`rows, db`nextPk, db`emails, a`pk, a`verified, a`primary
    ensures db.Valid()
    ensures done <==>
      || old(a.verified) || !db.cfg.uniqueEmail
      || forall p | p in old(db.rows) && Some(p) != old(a.pk) && old(db.rows)[p].verified ::
           old(db.rows)[p].email != a.email
    ensures !done ==> db.rows == old(db.rows) && db.emails == old(db.emails)
    ensures done ==>
      && a.verified && a.pk == Some(old(a.Target(db))) && a.Loaded(db)
      && ComesOutVerified(db.cfg, old(db.rows), old(db.emails), a.pk.value, old(a.AsRow()), db.rows, db.emails)
    ensures Step(db.cfg, old(db.rows), old(db.emails),
                 if old(a.pk).Some? then Verify(old(a.pk).value) else VerifyPending(a.user, a.email),
                 db.rows, db.emails)
  {
    hide Constraints, Accepts, Demoted, Clash;
    ghost var before, row, target := db.rows, a.AsRow(), a.Target(db);
    LoadedAccepts(db, a);
    done := a.SetVerified(db);
    assert done <==> CanSetVerified(db.cfg, before, target, row);
    if !done {
      return;
    }
    VerifyAccepts(db.cfg, before, target, row);
    PrimaryOff(db.cfg, before, target, a.AsRow());
    var promoted := a.SetAsPrimary(db, !db.cfg.changeEmail);
    if promoted {
      PromotedKeeps(db.cfg, before, target, row.(verified := true));
    }
    ghost var saved, v := db.rows, row.(verified := true);
    db.Save(a);
    assert promoted ==> db.rows == saved == Promoted(before, target, v);
    if db.cfg.changeEmail {
      PromotedOnlyOne(db.cfg, before, target, row);
      RemoveOthers(db, a);
    }
    assert db.rows == Verified(db.cfg, before, target, row);
    assert db.emails == VerifiedEmails(db.cfg, before, old(db.emails), row);
    VerifiedComesOut(db.cfg, before, old(db.emails), target, row);
  }

  lemma LoadedAccepts(db: Database, a: EmailAddress)
    requires db.Valid() && a.InRange(db) && a.Loaded(db)
    ensures Accepts(db.cfg, db.rows, a.Target(db), a.AsRow())
  {
    forall q | q in db.rows && q != a.Target(db)
      ensures !Clash(db.cfg, db.rows[q], a.AsRow())
    {
      if a.pk.Some? {
        assert !Clash(db.cfg, db.rows[q], db.rows[a.pk.value]);
      }
    }
  }

  lemma PrimaryOff(cfg: Settings, rows: Rows, pk: Pk, row: Row)
    requires Accepts(cfg, rows, pk, row)
    ensures Accepts(cfg, rows, pk, row.(primary := false))
  {
    forall q | q in rows && q != pk
      ensures !Clash(cfg, rows[q], row.(primary := false))
    {
      assert !Clash(cfg, rows[q], row);
    }
  }

  ghost function OnlyOne(rows: Rows, user: User, pk: Pk): Rows {
    map p | p in rows && (rows[p].user != user || p == pk) :: rows[p]
  }

  /** Promoting a row and then dropping the user's others is a verification in change mode. */
  lemma PromotedOnlyOne(cfg: Settings, rows: Rows, pk: Pk, row: Row)
    requires cfg.changeEmail && (pk in rows ==> rows[pk].user == row.user)
    ensures OnlyOne(Promoted(rows, pk, row.(verified := true)), row.user, pk) == Verified(cfg, rows, pk, row)
  {
  }

  /** The loop that removes the user's other addresses; `user.email` is already the new one. */
  method RemoveOthers(db: Database, a: EmailAddress)
    requires db.Valid() && a.Loaded(db) && a.pk.Some?
    requires UserEmail(db.emails, a.user) == a.email
    modifies db`rows, db`emails
    ensures db.Valid() && db.emails == old(db.emails)
    ensures db.rows == OnlyOne(old(db.rows), a.user, a.pk.value)
  {
    ghost var start := db.rows;
    var others := set p | p in db.rows && db.rows[p].user == a.user && Some(p) != a.pk;
    var todo := others;
    assert Without(start, others - todo) == start;
    while todo != {}
      invariant todo <= others && db.Valid() && a.Loaded(db) && db.emails == old(db.emails)
      invariant db.rows == Without(start, others - todo)
      decreases todo
    {
      var p :| p in todo;
      RemoveOther(db, a, p);
      assert (others - todo) + {p} == others - (todo - {p});
      todo := todo - {p};
    }
    assert others - todo == others;
  }

  ghost function Without(rows: Rows, gone: set<Pk>): Rows {
    map p | p in rows && p !in gone :: rows[p]
  }

  /** One more address goes: it cannot be the one that `user.email` holds. */
  method RemoveOther(db: Database, a: EmailAddress, p: Pk)
    requires db.Valid() && a.Loaded(db) && a.pk.Some? && p in db.rows && p != a.pk.value
    requires db.rows[p].user == a.user && UserEmail(db.emails, a.user) == a.email
    modifies db`rows, db`emails
    ensures db.Valid() && a.Loaded(db) && db.emails == old(db.emails)
    ensures forall start, gone | old(db.rows) == Without(start, gone) :: db.rows == Without(start, gone + {p})
  {
    assert !Clash(db.cfg, db.rows[p], db.rows[a.pk.value]);
    var other := db.Load(p);
    other.Remove(db);
  }

  /** `add_new_email`: the pending address, if any, makes way for the new one. The transaction is
      rolled back when the account has the address already, other than as the pending one. */
  method AddNewEmail(db: Database, user: User, email: Email) returns (a: EmailAddress?)
    requires db.Valid()
    modifies db`rows, db`nextPk, db`emails
    ensures db.Valid()
    ensures a == null <==> exists p ::
      && p in old(db.rows) && old(db.rows)[p].user == user && old(db.rows)[p].email == email
      && !Latest(old(db.rows), user, p)
    ensures a != null ==> fresh(a) && a.Loaded(db) && a.AsRow() == Row(user, email, false, false)
    ensures Step(db.cfg, old(db.rows), old(db.emails), EmailTables.AddNewEmail(user, email), db.rows, db.emails)
  {
    hide Constraints, Synced, Accepts, Clash;
    var rows, emails := db.rows, db.emails;
    var pending := db.GetNew(user);
    if pending != null {
      pending.Remove(db);
    }
    if p :| p in db.rows && db.rows[p].user == user && db.rows[p].email == email {
      assert p in rows && rows[p] == db.rows[p] && !IsNew(rows, user, p);
      db.Restore(rows, emails);
      return null;
    }
    assert forall p | p in rows && p !in db.rows :: pending != null && p == pending.pk.value;
    assert FreeToAdd(rows, user, email);
    a := new EmailAddress(None, Row(user, email, false, false));
    LoadedAccepts(db, a);
    ghost var pk := db.nextPk;
    ghost var cleared := db.rows;
    db.Save(a);
    assert Inserted(cleared, pk, Row(user, email, false, false), db.rows);
  }

  /** `add_email` and `sync_email_address`: `get_or_create`. */
  method GetOrCreate(db: Database, user: User, email: Email) returns (created: bool)
    requires db.Valid()
    modifies db`rows, db`nextPk
    ensures db.Valid() && created == !HasEmail(old(db.rows), user, email)
    ensures Ensured(old(db.rows), user, email, db.rows)
  {
    if p :| p in db.rows && db.rows[p].user == user && db.rows[p].email == email {
      return false;
    }
    var a := new EmailAddress(None, Row(user, email, false, false));
    LoadedAccepts(db, a);
    db.Save(a);
    assert Inserted(old(db.rows), a.pk.value, Row(user, email, false, false), db.rows);
    created := true;
  }

  lemma OtherRow(rows: Rows, pk: Pk, user: User)
    ensures HasRow(rows - {pk}, user) <==> exists p :: p in rows && rows[p].user == user && p != pk
  {
    if p :| p in rows && rows[p].user == user && p != pk {
      assert p in rows - {pk} && (rows - {pk})[p].user == user;
    }
  }

  /** `can_delete_email`; an address that is not stored may always go. */
  method CanDeleteNow(db: Database, a: EmailAddress) returns (can: bool)
    requires a.Loaded(db)
    ensures can <==>
      || a.pk.None?
      || if forall p | p in db.rows && db.rows[p].user == a.user :: Some(p) == a.pk then !db.cfg.loginByEmailOnly
         else !a.primary
  {
    if a.pk.None? {
      return true;
    }
    var hasOther := exists p | p in db.rows :: db.rows[p].user == a.user && Some(p) != a.pk;
    OtherRow(db.rows, a.pk.value, a.user);
    if a.primary {
      if hasOther {
        return false;
      } else if db.cfg.loginByEmailOnly {
        return false;
      }
      return true;
    } else if hasOther {
      return true;
    } else if db.cfg.loginByEmailOnly {
      return false;
    } else {
      return true;
    }
  }

  method DeleteEmail(db: Database, a: EmailAddress) returns (success: bool)
    requires db.Valid() && a.Loaded(db) && a.pk.Some?
    modifies db`rows, db`emails
    ensures db.Valid()
    ensures success ==
      if forall p | p in old(db.rows) && old(db.rows)[p].user == a.user :: Some(p) == a.pk
      then !db.cfg.loginByEmailOnly else !a.primary
    ensures Step(db.cfg, old(db.rows), old(db.emails), EmailTables.DeleteEmail(a.pk.value), db.rows, db.emails)
  {
    OtherRow(db.rows, a.pk.value, a.user);
    success := CanDeleteNow(db, a);
    if success {
      a.Remove(db);
    }
  }

  method MarkAsPrimary(db: Database, a: EmailAddress) returns (success: bool)
    requires db.Valid() && a.InRange(db) && a.Loaded(db)
    modifies db`rows, db`nextPk, db`emails, a`pk, a`primary
    ensures db.Valid()
    ensures old(a.pk).None? ==> !success && db.rows == old(db.rows) && db.emails == old(db.emails)
    ensures old(a.pk).Some? ==>
      && success == (a.verified ||
           forall p | p in old(db.rows) && old(db.rows)[p].user == a.user :: !old(db.rows)[p].verified)
      && Step(db.cfg, old(db.rows), old(db.emails), EmailTables.MarkAsPrimary(old(a.pk).value), db.rows, db.emails)
  {
    if a.pk.None? {
      return false;
    }
    success := a.verified || !exists p | p in db.rows :: db.rows[p].user == a.user && db.rows[p].verified;
    if success {
      LoadedAccepts(db, a);
      PrimaryOff(db.cfg, db.rows, a.pk.value, a.AsRow());
      success := a.SetAsPrimary(db, false);
    }
  }
}
