/** `cleanup_email_addresses` and `setup_user_email`: from a list of claimed addresses to the rows
    of a new user. */
module EmailSignup {
  import opened Options
  import opened EmailTables
  import opened EmailAddresses

  /** `strict` is strict enumeration prevention; `normalize` is `valid_email_or_none`;
      `vouched` is the session's address that `is_email_verified` accepts. */
  datatype Rules = Rules(cfg: Settings, strict: bool, normalize: Email -> Option<Email>, vouched: Option<Email>)

  predicate InUse(rows: Rows, email: Email) {
    exists p | p in rows :: rows[p].email == email
  }

  predicate VerifiedInUse(rows: Rows, email: Email) {
    exists p | p in rows :: rows[p].email == email && rows[p].verified
  }

  /** The address survives the cleanup under the name `email`. */
  ghost predicate Names(r: Rules, rows: Rows, a: Address, email: Email) {
    && r.normalize(a.email) == Some(email)
    && (r.cfg.uniqueEmail && !r.strict ==> !InUse(rows, email))
    && (r.cfg.uniqueEmail && r.strict && a.verified ==> !VerifiedInUse(rows, email))
  }

  ghost predicate SeenIn(r: Rules, rows: Rows, addresses: seq<Address>, n: nat, email: Email)
    requires n <= |addresses|
  {
    exists i :: 0 <= i < n && Names(r, rows, addresses[i], email)
  }

  ghost predicate VerifiedIn(r: Rules, rows: Rows, addresses: seq<Address>, n: nat, email: Email)
    requires n <= |addresses|
  {
    || (r.vouched == Some(email) && SeenIn(r, rows, addresses, n, email))
    || exists i :: 0 <= i < n && Names(r, rows, addresses[i], email) && addresses[i].verified
  }

  ghost predicate PrimaryIn(r: Rules, rows: Rows, addresses: seq<Address>, n: nat, email: Email)
    requires n <= |addresses|
  {
    exists i :: 0 <= i < n && Names(r, rows, addresses[i], email) && addresses[i].primary
  }

  datatype Merit = VerifiedPrimary | IsVerified | IsPrimary | IsSeen

  /** What the first `n` addresses together say about `email`. */
  ghost predicate Has(r: Rules, rows: Rows, addresses: seq<Address>, n: nat, m: Merit, email: Email)
    requires n <= |addresses|
  {
    match m
    case VerifiedPrimary => VerifiedIn(r, rows, addresses, n, email) && PrimaryIn(r, rows, addresses, n, email)
    case IsVerified => VerifiedIn(r, rows, addresses, n, email)
    case IsPrimary => PrimaryIn(r, rows, addresses, n, email)
    case IsSeen => SeenIn(r, rows, addresses, n, email)
  }

  ghost predicate Any(r: Rules, rows: Rows, addresses: seq<Address>, n: nat, m: Merit)
    requires n <= |addresses|
  {
    exists e :: Has(r, rows, addresses, n, m, e)
  }

  /** Reading address `i` makes `email` reach merit `m`, which no email had before. */
  ghost predicate FirstAt(r: Rules, rows: Rows, addresses: seq<Address>, i: nat, m: Merit, email: Email) {
    i < |addresses| && Has(r, rows, addresses, i + 1, m, email) && forall e :: !Has(r, rows, addresses, i, m, e)
  }

  /** `email` is the first to reach merit `m`, reading the addresses in order. */
  ghost predicate FirstTo(r: Rules, rows: Rows, addresses: seq<Address>, n: nat, m: Merit, email: Email)
    requires n <= |addresses|
  {
    && Has(r, rows, addresses, n, m, email)
    && exists i :: 0 <= i < n && FirstAt(r, rows, addresses, i, m, email)
  }

  /** The best merit that any address has. */
  ghost function Best(r: Rules, rows: Rows, addresses: seq<Address>): Merit {
    var n := |addresses|;
    if Any(r, rows, addresses, n, VerifiedPrimary) then VerifiedPrimary
    else if Any(r, rows, addresses, n, IsVerified) then IsVerified
    else if Any(r, rows, addresses, n, IsPrimary) then IsPrimary
    else IsSeen
  }

  /** One more address changes what is said about its own email only. */
  lemma HasStep(r: Rules, rows: Rows, addresses: seq<Address>, i: nat, m: Merit, email: Email)
    requires i < |addresses|
    ensures var a := addresses[i];
      Has(r, rows, addresses, i + 1, m, email) <==>
        if !Names(r, rows, a, email) then Has(r, rows, addresses, i, m, email)
        else
          var v := VerifiedIn(r, rows, addresses, i, email) || a.verified || r.vouched == Some(email);
          var p := PrimaryIn(r, rows, addresses, i, email) || a.primary;
          match m case VerifiedPrimary => v && p case IsVerified => v case IsPrimary => p case IsSeen => true
  {
  }

  /** A list of emails that reached a merit, in order. */
  ghost predicate Tracks(r: Rules, rows: Rows, addresses: seq<Address>, n: nat, m: Merit, emails: seq<Email>)
    requires n <= |addresses|
  {
    if emails == [] then forall e :: !Has(r, rows, addresses, n, m, e)
    else FirstTo(r, rows, addresses, n, m, emails[0])
  }

  /** Appending the address's email when it has the merit keeps the list right. */
  lemma TracksStep(r: Rules, rows: Rows, addresses: seq<Address>, i: nat, m: Merit, emails: seq<Email>, email: Email)
    requires i < |addresses| && Names(r, rows, addresses[i], email)
    requires Tracks(r, rows, addresses, i, m, emails)
    ensures Tracks(r, rows, addresses, i + 1, m,
                   if Has(r, rows, addresses, i + 1, m, email) then emails + [email] else emails)
  {
    hide Has, Names;
    var n := i + 1;
    forall e
      ensures Has(r, rows, addresses, i, m, e) ==> Has(r, rows, addresses, n, m, e)
      ensures e != email && Has(r, rows, addresses, n, m, e) ==> Has(r, rows, addresses, i, m, e)
    {
      HasGrows(r, rows, addresses, i, m, e);
      if e != email {
        OneName(r, rows, addresses[i], email, e);
      }
    }
    if emails == [] && Has(r, rows, addresses, i + 1, m, email) {
      assert FirstAt(r, rows, addresses, i, m, email);
    }
  }

  lemma OneName(r: Rules, rows: Rows, a: Address, email: Email, e: Email)
    requires Names(r, rows, a, email) && e != email
    ensures !Names(r, rows, a, e)
  {
  }

  lemma HasGrows(r: Rules, rows: Rows, addresses: seq<Address>, i: nat, m: Merit, email: Email)
    requires i < |addresses|
    ensures Has(r, rows, addresses, i, m, email) ==> Has(r, rows, addresses, i + 1, m, email)
    ensures !Names(r, rows, addresses[i], email) ==>
      (Has(r, rows, addresses, i + 1, m, email) <==> Has(r, rows, addresses, i, m, email))
  {
    HasStep(r, rows, addresses, i, m, email);
  }

  lemma TracksSkip(r: Rules, rows: Rows, addresses: seq<Address>, i: nat, m: Merit, emails: seq<Email>)
    requires i < |addresses| && Tracks(r, rows, addresses, i, m, emails)
    requires forall e :: !Names(r, rows, addresses[i], e)
    ensures Tracks(r, rows, addresses, i + 1, m, emails)
  {
    hide Has;
    var n := i + 1;
    forall e
      ensures Has(r, rows, addresses, n, m, e) <==> Has(r, rows, addresses, i, m, e)
    {
      HasGrows(r, rows, addresses, i, m, e);
    }
  }

  /** The grouped addresses: every surviving email once, with what was said about it. */
  ghost predicate Grouped(r: Rules, rows: Rows, addresses: seq<Address>, n: nat, order: seq<Email>,
                          e2a: map<Email, Address>)
    requires n <= |addresses|
  {
    && (forall i, j | 0 <= i < j < |order| :: order[i] != order[j])
    && (forall e :: e in order <==> e in e2a)
    && (forall e :: e in e2a <==> SeenIn(r, rows, addresses, n, e))
    && forall e | e in e2a ::
         e2a[e].email == e
         && (e2a[e].verified <==> VerifiedIn(r, rows, addresses, n, e))
         && (e2a[e].primary <==> PrimaryIn(r, rows, addresses, n, e))
  }

  lemma GroupedSkip(r: Rules, rows: Rows, addresses: seq<Address>, i: nat, order: seq<Email>, e2a: map<Email, Address>)
    requires i < |addresses| && Grouped(r, rows, addresses, i, order, e2a)
    requires forall e :: !Names(r, rows, addresses[i], e)
    ensures Grouped(r, rows, addresses, i + 1, order, e2a)
  {
    hide Names;
    forall e
      ensures SeenIn(r, rows, addresses, i + 1, e) <==> SeenIn(r, rows, addresses, i, e)
      ensures VerifiedIn(r, rows, addresses, i + 1, e) <==> VerifiedIn(r, rows, addresses, i, e)
      ensures PrimaryIn(r, rows, addresses, i + 1, e) <==> PrimaryIn(r, rows, addresses, i, e)
    {
      HasStep(r, rows, addresses, i, IsSeen, e);
      HasStep(r, rows, addresses, i, IsVerified, e);
      HasStep(r, rows, addresses, i, IsPrimary, e);
    }
  }

  lemma GroupedStep(r: Rules, rows: Rows, addresses: seq<Address>, i: nat, order: seq<Email>, e2a: map<Email, Address>,
                    email: Email, a: Address)
    requires i < |addresses| && Grouped(r, rows, addresses, i, order, e2a) && Names(r, rows, addresses[i], email)
    requires a == if email in e2a
                  then Address(email, e2a[email].verified || addresses[i].verified,
                               e2a[email].primary || addresses[i].primary)
                  else Address(email, addresses[i].verified || r.vouched == Some(email), addresses[i].primary)
    ensures Grouped(r, rows, addresses, i + 1, if email in e2a then order else order + [email], e2a[email := a])
  {
    hide Names;
    forall e
      ensures e == email ==> SeenIn(r, rows, addresses, i + 1, e)
      ensures e != email ==> (SeenIn(r, rows, addresses, i + 1, e) <==> SeenIn(r, rows, addresses, i, e))
      ensures e != email ==> (VerifiedIn(r, rows, addresses, i + 1, e) <==> VerifiedIn(r, rows, addresses, i, e))
      ensures e != email ==> (PrimaryIn(r, rows, addresses, i + 1, e) <==> PrimaryIn(r, rows, addresses, i, e))
      ensures e == email ==> (VerifiedIn(r, rows, addresses, i + 1, e)
                              <==>
                              VerifiedIn(r, rows, addresses, i, e) || addresses[i].verified || r.vouched == Some(e))
      ensures e == email ==> (PrimaryIn(r, rows, addresses, i + 1, e)
                              <==> PrimaryIn(r, rows, addresses, i, e) || addresses[i].primary)
    {
      HasStep(r, rows, addresses, i, IsSeen, e);
      HasStep(r, rows, addresses, i, IsVerified, e);
      HasStep(r, rows, addresses, i, IsPrimary, e);
      if e != email {
        OneName(r, rows, addresses[i], email, e);
      }
    }
    if email !in e2a {
      assert !SeenIn(r, rows, addresses, i, email);
      NotSeen(r, rows, addresses, i, email);
    }
    assert r.vouched == Some(email) && email in e2a ==> e2a[email].verified;
  }

  lemma NotSeen(r: Rules, rows: Rows, addresses: seq<Address>, n: nat, email: Email)
    requires n <= |addresses| && !SeenIn(r, rows, addresses, n, email)
    ensures !VerifiedIn(r, rows, addresses, n, email) && !PrimaryIn(r, rows, addresses, n, email)
  {
  }

  /** The cleaned list together with its chosen primary. */
  ghost predicate Cleaned(r: Rules, rows: Rows, addresses: seq<Address>, list: seq<Address>, primary: Option<Address>) {
    var n := |addresses|;
    && (forall i, j | 0 <= i < j < |list| :: list[i].email != list[j].email)
    && (forall e :: (exists k :: 0 <= k < |list| && list[k].email == e) <==> SeenIn(r, rows, addresses, n, e))
    && (forall k | 0 <= k < |list| :: list[k].verified <==> VerifiedIn(r, rows, addresses, n, list[k].email))
    && (primary.None? <==> list == [])
    && (primary.Some? ==>
          && primary.value in list
          && FirstTo(r, rows, addresses, n, Best(r, rows, addresses), primary.value.email)
          && forall k | 0 <= k < |list| :: list[k].primary <==> list[k] == primary.value)
  }

  ghost predicate Progress(r: Rules, rows: Rows, addresses: seq<Address>, n: nat, order: seq<Email>,
                           e2a: map<Email, Address>, primaries: seq<Email>, verifieds: seq<Email>,
                           verifiedPrimaries: seq<Email>)
    requires n <= |addresses|
  {
    && Grouped(r, rows, addresses, n, order, e2a)
    && Tracks(r, rows, addresses, n, IsSeen, order)
    && Tracks(r, rows, addresses, n, IsPrimary, primaries)
    && Tracks(r, rows, addresses, n, IsVerified, verifieds)
    && Tracks(r, rows, addresses, n, VerifiedPrimary, verifiedPrimaries)
  }

  lemma ProgressSkip(r: Rules, rows: Rows, addresses: seq<Address>, i: nat, order: seq<Email>, e2a: map<Email, Address>,
                     primaries: seq<Email>, verifieds: seq<Email>, verifiedPrimaries: seq<Email>)
    requires i < |addresses| && Progress(r, rows, addresses, i, order, e2a, primaries, verifieds, verifiedPrimaries)
    requires forall e :: !Names(r, rows, addresses[i], e)
    ensures Progress(r, rows, addresses, i + 1, order, e2a, primaries, verifieds, verifiedPrimaries)
  {
    hide Grouped, Tracks;
    GroupedSkip(r, rows, addresses, i, order, e2a);
    TracksSkip(r, rows, addresses, i, IsSeen, order);
    TracksSkip(r, rows, addresses, i, IsPrimary, primaries);
    TracksSkip(r, rows, addresses, i, IsVerified, verifieds);
    TracksSkip(r, rows, addresses, i, VerifiedPrimary, verifiedPrimaries);
  }

  function Merged(r: Rules, e2a: map<Email, Address>, email: Email, address: Address): Address {
    if email in e2a
    then Address(email, e2a[email].verified || address.verified, e2a[email].primary || address.primary)
    else Address(email, address.verified || r.vouched == Some(email), address.primary)
  }

  lemma ProgressStep(r: Rules, rows: Rows, addresses: seq<Address>, i: nat, order: seq<Email>, e2a: map<Email, Address>,
                     primaries: seq<Email>, verifieds: seq<Email>, verifiedPrimaries: seq<Email>, email: Email)
    requires i < |addresses| && Progress(r, rows, addresses, i, order, e2a, primaries, verifieds, verifiedPrimaries)
    requires Names(r, rows, addresses[i], email)
    ensures var a := Merged(r, e2a, email, addresses[i]);
      Progress(r, rows, addresses, i + 1, if email in e2a then order else order + [email], e2a[email := a],
               if a.primary then primaries + [email] else primaries,
               if a.verified then verifieds + [email] else verifieds,
               if a.primary && a.verified then verifiedPrimaries + [email] else verifiedPrimaries)
  {
    hide Names, SeenIn, VerifiedIn, PrimaryIn;
    var a := Merged(r, e2a, email, addresses[i]);
    GroupedStep(r, rows, addresses, i, order, e2a, email, a);
    StepMerits(r, rows, addresses, i, order, e2a, email, a);
    TracksStep(r, rows, addresses, i, IsSeen, order, email);
    TracksStep(r, rows, addresses, i, IsPrimary, primaries, email);
    TracksStep(r, rows, addresses, i, IsVerified, verifieds, email);
    TracksStep(r, rows, addresses, i, VerifiedPrimary, verifiedPrimaries, email);
    hide Has, Grouped, FirstTo;
  }

  /** The merged flags are the email's merits so far. */
  lemma StepMerits(r: Rules, rows: Rows, addresses: seq<Address>, i: nat, order: seq<Email>, e2a: map<Email, Address>,
                   email: Email, a: Address)
    requires i < |addresses| && Names(r, rows, addresses[i], email)
    requires Grouped(r, rows, addresses, i + 1, if email in e2a then order else order + [email], e2a[email := a])
    ensures Has(r, rows, addresses, i + 1, IsSeen, email)
    ensures a.primary <==> Has(r, rows, addresses, i + 1, IsPrimary, email)
    ensures a.verified <==> Has(r, rows, addresses, i + 1, IsVerified, email)
    ensures a.primary && a.verified <==> Has(r, rows, addresses, i + 1, VerifiedPrimary, email)
  {
    assert email in e2a[email := a];
  }

  method CleanupEmailAddresses(r: Rules, rows: Rows, addresses: seq<Address>)
    returns (list: seq<Address>, primary: Option<Address>)
    ensures Cleaned(r, rows, addresses, list, primary)
  {
    hide Progress, Cleaned, FirstTo, Best;
    var order: seq<Email>, e2a: map<Email, Address> := [], map[];
    var primaries: seq<Email>, verifieds: seq<Email>, verifiedPrimaries: seq<Email> := [], [], [];
    NothingYet(r, rows, addresses);
    for i := 0 to |addresses|
      invariant Progress(r, rows, addresses, i, order, e2a, primaries, verifieds, verifiedPrimaries)
    {
      var address := addresses[i];
      var name := r.normalize(address.email);
      if name.None?
         || (r.cfg.uniqueEmail && !r.strict && InUse(rows, name.value))
         || (r.cfg.uniqueEmail && r.strict && address.verified && VerifiedInUse(rows, name.value)) {
        ProgressSkip(r, rows, addresses, i, order, e2a, primaries, verifieds, verifiedPrimaries);
        continue;
      }
      var email := name.value;
      ProgressStep(r, rows, addresses, i, order, e2a, primaries, verifieds, verifiedPrimaries, email);
      var a: Address;
      if email in e2a {
        a := Address(email, e2a[email].verified || address.verified, e2a[email].primary || address.primary);
      } else {
        a := Address(email, address.verified || r.vouched == Some(email), address.primary);
        order := order + [email];
      }
      e2a := e2a[email := a];
      if a.primary {
        primaries := primaries + [email];
        if a.verified {
          verifiedPrimaries := verifiedPrimaries + [email];
        }
      }
      if a.verified {
        verifieds := verifieds + [email];
      }
    }
    var chosen := if verifiedPrimaries != [] then verifiedPrimaries[0]
                  else if verifieds != [] then verifieds[0]
                  else if primaries != [] then primaries[0]
                  else if order != [] then order[0] else "";
    ChosenIsBest(r, rows, addresses, order, e2a, primaries, verifieds, verifiedPrimaries);
    ChosenCleans(r, rows, addresses, order, e2a, chosen);
    list := Listed(order, e2a, chosen);
    primary := if order == [] then None else Some(e2a[chosen].(primary := true));
  }

  lemma NothingYet(r: Rules, rows: Rows, addresses: seq<Address>)
    ensures Progress(r, rows, addresses, 0, [], map[], [], [], [])
  {
  }

  lemma ChosenIsBest(r: Rules, rows: Rows, addresses: seq<Address>, order: seq<Email>, e2a: map<Email, Address>,
                     primaries: seq<Email>, verifieds: seq<Email>, verifiedPrimaries: seq<Email>)
    requires Progress(r, rows, addresses, |addresses|, order, e2a, primaries, verifieds, verifiedPrimaries)
    ensures Grouped(r, rows, addresses, |addresses|, order, e2a)
    ensures order != [] ==> FirstTo(r, rows, addresses, |addresses|, Best(r, rows, addresses),
      if verifiedPrimaries != [] then verifiedPrimaries[0]
      else if verifieds != [] then verifieds[0]
      else if primaries != [] then primaries[0]
      else order[0])
  {
    hide Has, Grouped, FirstAt;
  }

  /** `list(e2a.values())` with the one primary set. */
  function Listed(order: seq<Email>, e2a: map<Email, Address>, chosen: Email): (l: seq<Address>)
    requires forall k :: 0 <= k < |order| ==> order[k] in e2a
    ensures |l| == |order|
    ensures forall k :: 0 <= k < |order| ==> l[k] == e2a[order[k]].(primary := order[k] == chosen)
  {
    seq(|order|, k requires 0 <= k < |order| => e2a[order[k]].(primary := order[k] == chosen))
  }

  lemma ChosenCleans(r: Rules, rows: Rows, addresses: seq<Address>, order: seq<Email>, e2a: map<Email, Address>,
                     chosen: Email)
    requires Grouped(r, rows, addresses, |addresses|, order, e2a)
    requires order != [] ==> FirstTo(r, rows, addresses, |addresses|, Best(r, rows, addresses), chosen)
    ensures order != [] ==> chosen in e2a
    ensures forall k :: 0 <= k < |order| ==> order[k] in e2a
    ensures Cleaned(r, rows, addresses, Listed(order, e2a, chosen),
                    if order == [] then None else Some(e2a[chosen].(primary := true)))
  {
    MeritIsSeen(r, rows, addresses, Best(r, rows, addresses), chosen);
    hide Names, SeenIn, VerifiedIn, PrimaryIn, Has, FirstAt, Best, Listed;
    var list := Listed(order, e2a, chosen);
    forall e
      ensures (exists k :: 0 <= k < |list| && list[k].email == e) <==> SeenIn(r, rows, addresses, |addresses|, e)
    {
      if e in order {
        var k :| 0 <= k < |order| && order[k] == e;
        assert list[k].email == e;
      }
    }
    if order != [] {
      var k :| 0 <= k < |order| && order[k] == chosen;
      assert list[k] == e2a[chosen].(primary := true);
    }
  }

  lemma MeritIsSeen(r: Rules, rows: Rows, addresses: seq<Address>, m: Merit, email: Email)
    ensures Has(r, rows, addresses, |addresses|, m, email) ==> SeenIn(r, rows, addresses, |addresses|, email)
  {
  }

  // ---------- Uniqueness of verified emails ----------

  /** A surviving email that another account has verified comes out verified exactly when the
      session vouches for it; without enumeration prevention in strict mode it does not survive. */
  lemma ClashIff(r: Rules, rows: Rows, addresses: seq<Address>, email: Email)
    requires r.cfg.uniqueEmail && VerifiedInUse(rows, email)
    ensures VerifiedIn(r, rows, addresses, |addresses|, email)
      <==> r.vouched == Some(email) && SeenIn(r, rows, addresses, |addresses|, email)
    ensures !r.strict ==> !SeenIn(r, rows, addresses, |addresses|, email)
  {
  }

  /** The vouched address can indeed clash: the strict check looks at the claim, not at the session.
      No request gets here: the one caller, `setup_user_email`, takes the session's address out
      before the cleanup looks at it (see `SetupUserEmail`). */
  lemma VouchedAddressMayClash()
    ensures exists r: Rules, rows: Rows, addresses: seq<Address>, email ::
      && r.cfg.uniqueEmail && r.strict && VerifiedInUse(rows, email)
      && VerifiedIn(r, rows, addresses, |addresses|, email)
  {
    var email := "a@b.c";
    var r := Rules(Settings(true, false, false), true, e => Some(e), Some(email));
    var rows: Rows := map[1 := Row(7, email, true, true)];
    var addresses := [Address(email, false, false)];
    assert Names(r, rows, addresses[0], email);
    assert SeenIn(r, rows, addresses, 1, email);
    assert rows[1].email == email && rows[1].verified;
    assert VerifiedInUse(rows, email);
  }

  /** With nothing vouched for, the cleaned list can be saved as it is. */
  lemma CleanedIsClean(r: Rules, rows: Rows, addresses: seq<Address>, list: seq<Address>, primary: Option<Address>)
    requires Cleaned(r, rows, addresses, list, primary) && r.vouched.None?
    ensures CleanFor(r.cfg, rows, list)
  {
    hide FirstTo, Best;
    if r.cfg.uniqueEmail {
      forall i, p | 0 <= i < |list| && p in rows
        ensures !(list[i].verified && rows[p].verified && list[i].email == rows[p].email)
      {
        if rows[p].verified && list[i].email == rows[p].email {
          ClashIff(r, rows, addresses, list[i].email);
        }
      }
    }
  }

  // ---------- What a signup comes to ----------

  /** Uniqueness keeps the address out: it is in use, or, in strict mode, the claim is a verified one
      and so is the address in use. */
  ghost predicate Blocked(r: Rules, rows: Rows, email: Email, verified: bool) {
    r.cfg.uniqueEmail &&
    exists p :: p in rows && rows[p].email == email && (!r.strict || (verified && rows[p].verified))
  }

  lemma NamesIff(r: Rules, rows: Rows, a: Address, email: Email)
    ensures Names(r, rows, a, email) <==> r.normalize(a.email) == Some(email) && !Blocked(r, rows, email, a.verified)
  {
  }

  /** What is claimed of an address: that it is the user's, verified if `verified` asks for it. */
  ghost predicate Claimed(r: Rules, rows: Rows, claimed: seq<Address>, email: Email, verified: bool) {
    exists i :: 0 <= i < |claimed| && r.normalize(claimed[i].email) == Some(email)
                && !Blocked(r, rows, email, claimed[i].verified) && (verified ==> claimed[i].verified)
  }

  ghost predicate FromSession(r: Rules, rows: Rows, stashed: Option<Email>, email: Email) {
    stashed.Some? && r.normalize(stashed.value) == Some(email) && !Blocked(r, rows, email, true)
  }

  ghost predicate FromUser(r: Rules, rows: Rows, own: Email, email: Email) {
    own != "" && r.normalize(own) == Some(email) && !Blocked(r, rows, email, false)
  }

  /** Stored is what the session, the user or a claim names. */
  ghost predicate StoredRight(r: Rules, rows: Rows, stashed: Option<Email>, own: Email, claimed: seq<Address>,
                              user: User, rows': Rows, e: Email) {
    HasEmail(rows', user, e) <==>
    FromSession(r, rows, stashed, e) || FromUser(r, rows, own, e) || Claimed(r, rows, claimed, e, false)
  }

  /** Verified is what the session or a verified claim names; the primary is `email`. */
  ghost predicate MarkedRight(r: Rules, rows: Rows, stashed: Option<Email>, claimed: seq<Address>, row: Row,
                              email: Email) {
    && (row.verified <==> FromSession(r, rows, stashed, row.email) || Claimed(r, rows, claimed, row.email, true))
    && (row.primary <==> row.email == email)
  }

  ghost predicate SetUpRows(r: Rules, rows: Rows, stashed: Option<Email>, own: Email, claimed: seq<Address>,
                            user: User, rows': Rows, email: Email) {
    && (forall e :: StoredRight(r, rows, stashed, own, claimed, user, rows', e))
    && forall p | p in rows' && rows'[p].user == user :: MarkedRight(r, rows, stashed, claimed, rows'[p], email)
  }

  /** The primary is the session's address; failing that a verified one, and failing that the user's own. */
  ghost predicate SetUpPrimary(r: Rules, rows: Rows, stashed: Option<Email>, own: Email, claimed: seq<Address>,
                               email: Email) {
    && (forall e :: FromSession(r, rows, stashed, e) ==> email == e)
    && ((forall e :: !FromSession(r, rows, stashed, e)) && (exists e :: Claimed(r, rows, claimed, e, true)) ==>
          Claimed(r, rows, claimed, email, true))
    && ((forall e :: !FromSession(r, rows, stashed, e) && !Claimed(r, rows, claimed, e, true)) ==>
          forall e :: FromUser(r, rows, own, e) ==> email == e)
  }

  /** The sources of a signup, in the order in which they are read. */
  lemma SourcesIff(r: Rules, rows: Rows, stashed: Option<Email>, own: Email, claimed: seq<Address>, email: Email)
    requires r.vouched.None?
    ensures var all := Priority(stashed, own) + claimed;
      && (SeenIn(r, rows, all, |all|, email) <==>
            || FromSession(r, rows, stashed, email) || FromUser(r, rows, own, email)
            || Claimed(r, rows, claimed, email, false))
      && (VerifiedIn(r, rows, all, |all|, email) <==>
            FromSession(r, rows, stashed, email) || Claimed(r, rows, claimed, email, true))
  {
    var all := Priority(stashed, own) + claimed;
    SourceSeen(r, rows, stashed, own, claimed, email);
    hide FromSession, FromUser, Claimed, Names, Priority;
    if i :| 0 <= i < |all| && Names(r, rows, all[i], email) && all[i].verified {
      SourceIs(r, rows, stashed, own, claimed, email, i);
    }
    if i :| 0 <= i < |all| && Names(r, rows, all[i], email) {
      SourceIs(r, rows, stashed, own, claimed, email, i);
    }
  }

  /** An address that names `email` comes from one of the three. */
  lemma SourceIs(r: Rules, rows: Rows, stashed: Option<Email>, own: Email, claimed: seq<Address>, email: Email, i: nat)
    requires var all := Priority(stashed, own) + claimed; i < |all| && Names(r, rows, all[i], email)
    ensures
      || FromSession(r, rows, stashed, email) || FromUser(r, rows, own, email)
      || Claimed(r, rows, claimed, email, false)
    ensures (Priority(stashed, own) + claimed)[i].verified ==>
      FromSession(r, rows, stashed, email) || Claimed(r, rows, claimed, email, true)
  {
    var before := Priority(stashed, own);
    var all := before + claimed;
    NamesIff(r, rows, all[i], email);
    hide Names, Blocked;
    if i >= |before| {
      var k := i - |before|;
      assert all[i] == claimed[k];
      assert Claimed(r, rows, claimed, email, false);
      assert claimed[k].verified ==> Claimed(r, rows, claimed, email, true);
    } else {
      assert all[i] == before[i];
    }
  }

  lemma SourceSeen(r: Rules, rows: Rows, stashed: Option<Email>, own: Email, claimed: seq<Address>, email: Email)
    ensures var all := Priority(stashed, own) + claimed;
      && (FromSession(r, rows, stashed, email) || Claimed(r, rows, claimed, email, true) ==>
            VerifiedIn(r, rows, all, |all|, email) && SeenIn(r, rows, all, |all|, email))
      && (FromUser(r, rows, own, email) || Claimed(r, rows, claimed, email, false) ==>
            SeenIn(r, rows, all, |all|, email))
  {
    var before := Priority(stashed, own);
    var all := before + claimed;
    if FromSession(r, rows, stashed, email) {
      assert all[0] == Address(stashed.value, true, true);
      NamesIff(r, rows, all[0], email);
    }
    if FromUser(r, rows, own, email) {
      assert all[|before| - 1] == Address(own, false, true);
      NamesIff(r, rows, all[|before| - 1], email);
    }
    hide Priority;
    if Claimed(r, rows, claimed, email, true) {
      ClaimSeen(r, rows, before, claimed, email, true);
    }
    if Claimed(r, rows, claimed, email, false) {
      ClaimSeen(r, rows, before, claimed, email, false);
    }
    hide Names, FromSession, FromUser, Claimed, Blocked;
  }

  lemma ClaimSeen(r: Rules, rows: Rows, before: seq<Address>, claimed: seq<Address>, email: Email, verified: bool)
    requires Claimed(r, rows, claimed, email, verified)
    ensures var all := before + claimed;
      SeenIn(r, rows, all, |all|, email) && (verified ==> VerifiedIn(r, rows, all, |all|, email))
  {
    var all := before + claimed;
    var i :| 0 <= i < |claimed| && r.normalize(claimed[i].email) == Some(email)
             && !Blocked(r, rows, email, claimed[i].verified) && (verified ==> claimed[i].verified);
    assert all[|before| + i] == claimed[i];
    NamesIff(r, rows, claimed[i], email);
    hide Names, Blocked;
    assert Names(r, rows, all[|before| + i], email);
  }

  /** Whoever reaches the best merit first, reading in order, is the primary. */
  lemma FirstIsPrimary(r: Rules, rows: Rows, addresses: seq<Address>, list: seq<Address>, primary: Option<Address>,
                       email: Email, k: nat)
    requires Cleaned(r, rows, addresses, list, primary) && k < |addresses|
    requires forall i, e :: 0 <= i < k ==> !Names(r, rows, addresses[i], e)
    requires Names(r, rows, addresses[k], email) && Has(r, rows, addresses, k + 1, Best(r, rows, addresses), email)
    ensures primary.Some? && primary.value.email == email
  {
    var m := Best(r, rows, addresses);
    assert SeenIn(r, rows, addresses, |addresses|, email);
    assert list != [];
    var chosen := primary.value.email;
    var i :| 0 <= i < |addresses| && FirstAt(r, rows, addresses, i, m, chosen);
    hide Names;
    assert SeenIn(r, rows, addresses, i + 1, chosen);
    if i > k {
      HasKeeps(r, rows, addresses, k + 1, i, m, email);
    } else if chosen != email {
      OneName(r, rows, addresses[k], email, chosen);
    }
  }

  lemma {:induction false} HasKeeps(r: Rules, rows: Rows, addresses: seq<Address>, i: nat, n: nat, m: Merit,
                                    email: Email)
    requires i <= n <= |addresses| && Has(r, rows, addresses, i, m, email)
    ensures Has(r, rows, addresses, n, m, email)
  {
    if i < n {
      HasKeeps(r, rows, addresses, i, n - 1, m, email);
      HasGrows(r, rows, addresses, n - 1, m, email);
    }
  }

  /** The chosen primary: the session's address, else a verified one, else the user's own. */
  lemma ChosenOf(r: Rules, rows: Rows, stashed: Option<Email>, own: Email, claimed: seq<Address>,
                 list: seq<Address>, primary: Option<Address>, e: Email)
    requires r.vouched.None? && Cleaned(r, rows, Priority(stashed, own) + claimed, list, primary)
    ensures FromSession(r, rows, stashed, e) ==> primary.Some? && primary.value.email == e
    ensures (forall x :: !FromSession(r, rows, stashed, x)) && Claimed(r, rows, claimed, e, true) ==>
      primary.Some? && Claimed(r, rows, claimed, primary.value.email, true)
    ensures (forall x :: !FromSession(r, rows, stashed, x) && !Claimed(r, rows, claimed, x, true)) ==>
      FromUser(r, rows, own, e) ==> primary.Some? && primary.value.email == e
  {
    var all := Priority(stashed, own) + claimed;
    SourcesIff(r, rows, stashed, own, claimed, e);
    forall x
      ensures VerifiedIn(r, rows, all, |all|, x) <==>
        FromSession(r, rows, stashed, x) || Claimed(r, rows, claimed, x, true)
    {
      SourcesIff(r, rows, stashed, own, claimed, x);
    }
    if FromSession(r, rows, stashed, e) {
      assert all[0] == Address(stashed.value, true, true);
      NamesIff(r, rows, all[0], e);
      hide Names, Blocked;
      assert Has(r, rows, all, 1, VerifiedPrimary, e);
      HasKeeps(r, rows, all, 1, |all|, VerifiedPrimary, e);
      FirstIsPrimary(r, rows, all, list, primary, e, 0);
    } else if Claimed(r, rows, claimed, e, true) {
      hide Names, Blocked, Claimed, FromSession;
      assert Has(r, rows, all, |all|, IsVerified, e);
      assert SeenIn(r, rows, all, |all|, e) && list != [];
    } else if FromUser(r, rows, own, e) && forall x :: !VerifiedIn(r, rows, all, |all|, x) {
      OwnChosen(r, rows, stashed, own, claimed, list, primary, e);
    }
  }

  lemma OwnChosen(r: Rules, rows: Rows, stashed: Option<Email>, own: Email, claimed: seq<Address>,
                  list: seq<Address>, primary: Option<Address>, e: Email)
    requires r.vouched.None? && Cleaned(r, rows, Priority(stashed, own) + claimed, list, primary)
    requires FromUser(r, rows, own, e)
    requires var all := Priority(stashed, own) + claimed; forall x :: !VerifiedIn(r, rows, all, |all|, x)
    ensures primary.Some? && primary.value.email == e
  {
    var all := Priority(stashed, own) + claimed;
    var k := |Priority(stashed, own)| - 1;
    assert all[k] == Address(own, false, true);
    NamesIff(r, rows, all[k], e);
    hide Names, Blocked;
    assert Has(r, rows, all, k + 1, IsPrimary, e);
    HasKeeps(r, rows, all, k + 1, |all|, IsPrimary, e);
    assert Best(r, rows, all) == IsPrimary;
    forall i, x | 0 <= i < k
      ensures !Names(r, rows, all[i], x)
    {
      assert !VerifiedIn(r, rows, all, |all|, x) && all[i].verified;
    }
    FirstIsPrimary(r, rows, all, list, primary, e, k);
  }

  lemma ChosenIsPrimary(r: Rules, rows: Rows, stashed: Option<Email>, own: Email, claimed: seq<Address>,
                        list: seq<Address>, primary: Option<Address>)
    requires r.vouched.None? && Cleaned(r, rows, Priority(stashed, own) + claimed, list, primary)
    ensures SetUpPrimary(r, rows, stashed, own, claimed, if primary.Some? then primary.value.email else own)
  {
    hide Cleaned, FromSession, FromUser, Claimed, Priority;
    forall e
      ensures FromSession(r, rows, stashed, e) ==> primary.Some? && primary.value.email == e
      ensures (forall x :: !FromSession(r, rows, stashed, x)) && Claimed(r, rows, claimed, e, true) ==>
        primary.Some? && Claimed(r, rows, claimed, primary.value.email, true)
      ensures (forall x :: !FromSession(r, rows, stashed, x) && !Claimed(r, rows, claimed, x, true)) ==>
        FromUser(r, rows, own, e) ==> primary.Some? && primary.value.email == e
    {
      ChosenOf(r, rows, stashed, own, claimed, list, primary, e);
    }
  }

  lemma SavedEmails(rows: Rows, user: User, list: seq<Address>, base: Pk, e: Email)
    requires !HasRow(rows, user) && forall q | q in rows :: q < base
    ensures HasEmail(Saved(rows, user, list, base, |list|), user, e) <==>
      exists k :: 0 <= k < |list| && list[k].email == e
  {
    var rows' := Saved(rows, user, list, base, |list|);
    SavedRows(rows, user, list, base, |list|);
    hide Saved;
    if k :| 0 <= k < |list| && list[k].email == e {
      assert rows'[base + k] == RowOf(user, list[k]);
    }
    if p :| p in rows' && rows'[p].user == user && rows'[p].email == e {
      var k := p - base;
      assert p !in rows && rows'[p] == RowOf(user, list[k]);
      assert list[k].email == e;
    }
  }

  lemma CleanedAt(r: Rules, rows: Rows, addresses: seq<Address>, list: seq<Address>, primary: Option<Address>, k: nat)
    requires Cleaned(r, rows, addresses, list, primary) && k < |list|
    ensures list[k].verified <==> VerifiedIn(r, rows, addresses, |addresses|, list[k].email)
    ensures primary.Some? && (list[k].primary <==> list[k].email == primary.value.email)
  {
    hide FirstTo, Best, VerifiedIn, SeenIn;
  }

  lemma CleanedEmail(r: Rules, rows: Rows, addresses: seq<Address>, list: seq<Address>, primary: Option<Address>,
                     e: Email)
    requires Cleaned(r, rows, addresses, list, primary)
    ensures (exists k :: 0 <= k < |list| && list[k].email == e) <==> SeenIn(r, rows, addresses, |addresses|, e)
  {
  }

  /** Saving the cleaned list sets the user up. */
  lemma SavedIsSetUp(r: Rules, rows: Rows, stashed: Option<Email>, own: Email, claimed: seq<Address>,
                     list: seq<Address>, primary: Option<Address>, user: User, base: Pk)
    requires r.vouched.None? && Cleaned(r, rows, Priority(stashed, own) + claimed, list, primary)
    requires !HasRow(rows, user) && forall q | q in rows :: q < base
    ensures SetUpRows(r, rows, stashed, own, claimed, user, Saved(rows, user, list, base, |list|),
                      if primary.Some? then primary.value.email else own)
  {
    var all, rows' := Priority(stashed, own) + claimed, Saved(rows, user, list, base, |list|);
    var email := if primary.Some? then primary.value.email else own;
    SavedRows(rows, user, list, base, |list|);
    hide Saved, Cleaned, Priority, StoredRight, MarkedRight;
    forall e
      ensures StoredRight(r, rows, stashed, own, claimed, user, rows', e)
    {
      StoredIsRight(r, rows, stashed, own, claimed, list, primary, user, base, e);
    }
    forall p | p in rows' && rows'[p].user == user
      ensures MarkedRight(r, rows, stashed, claimed, rows'[p], email)
    {
      assert p !in rows && rows'[p] == RowOf(user, list[p - base]);
      MarkedIsRight(r, rows, stashed, own, claimed, list, primary, user, p - base);
    }
  }

  lemma StoredIsRight(r: Rules, rows: Rows, stashed: Option<Email>, own: Email, claimed: seq<Address>,
                      list: seq<Address>, primary: Option<Address>, user: User, base: Pk, e: Email)
    requires r.vouched.None? && Cleaned(r, rows, Priority(stashed, own) + claimed, list, primary)
    requires !HasRow(rows, user) && forall q | q in rows :: q < base
    ensures StoredRight(r, rows, stashed, own, claimed, user, Saved(rows, user, list, base, |list|), e)
  {
    hide Saved, SeenIn, VerifiedIn, FromSession, FromUser, Claimed, Cleaned, Priority, HasEmail;
    SourcesIff(r, rows, stashed, own, claimed, e);
    SavedEmails(rows, user, list, base, e);
    CleanedEmail(r, rows, Priority(stashed, own) + claimed, list, primary, e);
  }

  lemma MarkedIsRight(r: Rules, rows: Rows, stashed: Option<Email>, own: Email, claimed: seq<Address>,
                      list: seq<Address>, primary: Option<Address>, user: User, k: nat)
    requires r.vouched.None? && Cleaned(r, rows, Priority(stashed, own) + claimed, list, primary) && k < |list|
    ensures primary.Some? && MarkedRight(r, rows, stashed, claimed, RowOf(user, list[k]), primary.value.email)
  {
    hide SeenIn, VerifiedIn, FromSession, FromUser, Claimed, Cleaned, Priority;
    CleanedAt(r, rows, Priority(stashed, own) + claimed, list, primary, k);
    SourcesIff(r, rows, stashed, own, claimed, list[k].email);
  }

  // ---------- setup_user_email ----------

  class Session {
    var verifiedEmail: Option<Email>
  }

  /** Saves a new user's addresses. The session's verified email is taken out before the cleanup
      looks at it, so the cleanup vouches for nothing and no save can clash. */
  method SetupUserEmail(db: Database, session: Session, user: User, rules: Rules, claimed: seq<Address>)
    returns (list: seq<Address>, primary: Option<Address>)
    requires db.Valid() && !HasRow(db.rows, user) && rules.cfg == db.cfg
    modifies db`rows, db`nextPk, db`emails, session
    ensures db.Valid() && session.verifiedEmail == None
    ensures Cleaned(rules.(vouched := None), old(db.rows),
                    Priority(old(session.verifiedEmail), UserEmail(old(db.emails), user)) + claimed, list, primary)
    ensures SetUpRows(rules.(vouched := None), old(db.rows), old(session.verifiedEmail),
                      UserEmail(old(db.emails), user), claimed, user, db.rows, UserEmail(db.emails, user))
    ensures SetUpPrimary(rules.(vouched := None), old(db.rows), old(session.verifiedEmail),
                         UserEmail(old(db.emails), user), claimed, UserEmail(db.emails, user))
    ensures Allowed(db.cfg, old(db.rows), EmailTables.SetupUserEmail(user, list))
    ensures Step(db.cfg, old(db.rows), old(db.emails), EmailTables.SetupUserEmail(user, list), db.rows, db.emails)
    ensures primary.Some? ==> UserEmail(db.emails, user) == primary.value.email
  {
    hide Cleaned, SetUpRows, SetUpPrimary;
    var priority: seq<Address> := [];
    var stashed := session.verifiedEmail;
    session.verifiedEmail := None;
    if stashed.Some? {
      priority := priority + [Address(stashed.value, true, true)];
    }
    var email := UserEmail(db.emails, user);
    if email != "" {
      priority := priority + [Address(email, false, true)];
    }
    assert priority == Priority(stashed, email);
    var r := rules.(vouched := session.verifiedEmail);
    ghost var addresses := priority + claimed;
    list, primary := CleanupEmailAddresses(r, db.rows, priority + claimed);
    CleanedIsClean(r, db.rows, addresses, list, primary);
    ghost var before, base := db.rows, db.nextPk;
    SaveAll(db, user, list);
    CleanedPrimary(r, before, addresses, list, primary, db.emails, user);
    SavedIsSetUp(r, before, stashed, email, claimed, list, primary, user, base);
    ChosenIsPrimary(r, before, stashed, email, claimed, list, primary);
    if primary.Some? && email != primary.value.email {
      db.SetUserEmail(user, primary.value.email);
    }
  }

  /** The session's email and the user's own come first. */
  function Priority(stashed: Option<Email>, email: Email): seq<Address> {
    (if stashed.Some? then [Address(stashed.value, true, true)] else [])
    + if email != "" then [Address(email, false, true)] else []
  }

  method SaveAll(db: Database, user: User, list: seq<Address>)
    requires db.Valid() && !HasRow(db.rows, user) && CleanFor(db.cfg, db.rows, list)
    modifies db`rows, db`nextPk
    ensures db.Valid() && db.rows == Saved(old(db.rows), user, list, old(db.nextPk), |list|)
  {
    for i := 0 to |list|
      invariant db.Valid() && db.nextPk == old(db.nextPk) + i
      invariant db.rows == Saved(old(db.rows), user, list, old(db.nextPk), i)
    {
      var a := new EmailAddress(None, RowOf(user, list[i]));
      SavedAccepts(db.cfg, old(db.rows), user, list, old(db.nextPk), i);
      db.Save(a);
    }
  }

  /** The primary's email is the one that a signup leaves in `user.email`. */
  lemma CleanedPrimary(r: Rules, rows: Rows, addresses: seq<Address>, list: seq<Address>, primary: Option<Address>,
                       emails: Emails, user: User)
    requires Cleaned(r, rows, addresses, list, primary)
    ensures SetupEmail(emails, user, list, |list|) ==
      if primary.Some? then emails[user := primary.value.email] else emails
  {
    hide FirstTo, Best;
    if primary.Some? {
      var k :| 0 <= k < |list| && list[k] == primary.value;
      SetupEmailIs(emails, user, list, |list|, k);
    }
  }
}
