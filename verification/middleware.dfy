/** The request middleware (src/middleware.ts): for a signed-in visitor it
    first brings the user table in line with the authentication provider
    (by id, else by e-mail, else a new row) and makes sure a cultural
    profile exists; then it redirects visitors who are not signed in away
    from the protected pages. Every database or profile-service failure is
    caught, so the routing decision never depends on the sync. The
    database is a list of user rows and the set of user ids with a profile;
    which calls fail is a parameter. */
module Middleware {
  import opened Wrappers
  import opened Text

  /** The signed-in user as the authentication provider reports it. */
  datatype AuthUser = AuthUser(id: string, primaryEmail: Option<string>, displayName: Option<string>)

  datatype UserRow = UserRow(id: string, email: Option<string>, name: Option<string>, passwordHash: Option<string>)

  datatype Db = Db(users: seq<UserRow>, profiles: set<string>)

  /** Which calls throw: the two lookups, the update of a row found by
      e-mail, the creation of a new row, the profile lookup, and the profile
      creation (remote or local). */
  datatype Faults = Faults(lookup: bool, update: bool, create: bool, profileLookup: bool, profileCreate: bool)

  datatype Decision = Pass | Redirect(to: string, redirectUrl: string)

  const SignInPath := "/handler/sign-in"

  // ---------------------------------------------------------------------
  // Lookups: the first matching row, as `const [user] = …` returns it.

  function FindById(users: seq<UserRow>, id: string): (r: Option<nat>)
    ensures r.None? <==> forall i :: 0 <= i < |users| ==> users[i].id != id
    ensures r.Some? ==> r.value < |users| && users[r.value].id == id
                        && forall i :: 0 <= i < r.value ==> users[i].id != id
  {
    if |users| == 0 then None
    else if users[0].id == id then Some(0)
    else match FindById(users[1..], id)
      case Some(k) => Some(k + 1)
      case None => None
  }

  function FindByEmail(users: seq<UserRow>, email: string): (r: Option<nat>)
    ensures r.None? <==> forall i :: 0 <= i < |users| ==> users[i].email != Some(email)
    ensures r.Some? ==> r.value < |users| && users[r.value].email == Some(email)
                        && forall i :: 0 <= i < r.value ==> users[i].email != Some(email)
  {
    if |users| == 0 then None
    else if users[0].email == Some(email) then Some(0)
    else match FindByEmail(users[1..], email)
      case Some(k) => Some(k + 1)
      case None => None
  }

  /** `x || fallback` on optional strings. */
  function Or(x: Option<string>, fallback: Option<string>): (r: Option<string>)
    ensures x.Some? && x.value != "" ==> r == x
    ensures !(x.Some? && x.value != "") ==> r == fallback
  {
    if x.Some? && x.value != "" then x else fallback
  }

  // ---------------------------------------------------------------------
  // The sync.

  /** The row found by e-mail takes the provider's id and, when the provider
      has one, its display name; `updateUser` rewrites rows with the old id. */
  function AdoptRow(users: seq<UserRow>, oldId: string, user: AuthUser, existingName: Option<string>): (r: seq<UserRow>)
    ensures |r| == |users|
    ensures forall i :: 0 <= i < |r| && users[i].id == oldId ==>
              r[i] == users[i].(id := user.id, name := Or(user.displayName, existingName))
    ensures forall i :: 0 <= i < |r| && users[i].id != oldId ==> r[i] == users[i]
  {
    seq(|users|, i requires 0 <= i < |users| =>
      if users[i].id == oldId then users[i].(id := user.id, name := Or(user.displayName, existingName)) else users[i])
  }

  /** The row `createUser` inserts. */
  function NewRow(user: AuthUser): (row: UserRow)
    ensures row.id == user.id && row.passwordHash.None?
  {
    UserRow(user.id, Or(user.primaryEmail, None), Or(user.displayName, None), None)
  }

  /** The profile step, reached only after a user was adopted or created. */
  function EnsureProfile(db: Db, userId: string, faults: Faults): (r: Db)
    ensures r.users == db.users
    ensures r.profiles == db.profiles || (userId !in db.profiles && r.profiles == db.profiles + {userId})
    ensures userId !in db.profiles && !faults.profileLookup && !faults.profileCreate ==> userId in r.profiles
  {
    if faults.profileLookup || userId in db.profiles || faults.profileCreate then db
    else db.(profiles := db.profiles + {userId})
  }

  /** The `if (user) { try … }` block. */
  function Sync(user: AuthUser, db: Db, faults: Faults): (r: Db)
    ensures faults.lookup ==> r == db
    ensures FindById(db.users, user.id).Some? ==> r == db
    ensures r.profiles == db.profiles || (user.id !in db.profiles && r.profiles == db.profiles + {user.id})
  {
    if faults.lookup then db
    else if FindById(db.users, user.id).Some? then db
    else
      var byEmail := if user.primaryEmail.Some? && user.primaryEmail.value != "" then FindByEmail(db.users, user.primaryEmail.value) else None;
      match byEmail
      case Some(k) =>
        if faults.update then db
        else EnsureProfile(db.(users := AdoptRow(db.users, db.users[k].id, user, db.users[k].name)), user.id, faults)
      case None =>
        if faults.create then db
        else EnsureProfile(db.(users := db.users + [NewRow(user)]), user.id, faults)
  }

  /** A user the table knows by e-mail but not by the provider's id: the
      case that takes the `updateUser` branch. */
  predicate KnownByEmailOnly(user: AuthUser, db: Db) {
    && FindById(db.users, user.id).None?
    && user.primaryEmail.Some? && user.primaryEmail.value != ""
    && FindByEmail(db.users, user.primaryEmail.value).Some?
  }

  /** The sync as the code stands: the database module defines no
      `updateUser`, so the call throws every time and the catch around the
      whole block swallows it. Rows are only ever appended, never adopted. */
  function SyncAsWritten(user: AuthUser, db: Db, faults: Faults): (r: Db)
    ensures KnownByEmailOnly(user, db) ==> r == db
    ensures r.users == db.users || r.users == db.users + [NewRow(user)]
  {
    Sync(user, db, faults.(update := true))
  }

  /** As written, a user known only by e-mail is never adopted and never gets
      a profile, and the next request finds the table exactly as before, so
      it takes the same failing branch again. */
  lemma EmailOnlyNeverAdopted(user: AuthUser, db: Db, f1: Faults, f2: Faults)
    requires KnownByEmailOnly(user, db)
    ensures var r := SyncAsWritten(user, db, f1);
            && r == db
            && FindById(r.users, user.id).None?
            && (user.id in r.profiles <==> user.id in db.profiles)
            && KnownByEmailOnly(user, r)
            && SyncAsWritten(user, r, f2) == db
  {
  }

  /** A user unknown by id and e-mail is inserted with no password, and has
      a profile unless the profile lookup or creation fails. */
  lemma NewUserIsCreated(user: AuthUser, db: Db, faults: Faults)
    requires forall i :: 0 <= i < |db.users| ==> db.users[i].id != user.id && (user.primaryEmail.Some? ==> db.users[i].email != user.primaryEmail)
    ensures faults.lookup || faults.create ==> Sync(user, db, faults) == db
    ensures var r := Sync(user, db, faults);
            !faults.lookup && !faults.create ==>
            && |r.users| == |db.users| + 1 && r.users[..|db.users|] == db.users
            && r.users[|db.users|].id == user.id && r.users[|db.users|].passwordHash.None?
            && (!faults.profileLookup && !faults.profileCreate ==> user.id in r.profiles)
            && (faults.profileLookup || faults.profileCreate ==> r.profiles == db.profiles)
  {
    var r := Sync(user, db, faults);
    if user.primaryEmail.Some? && user.primaryEmail.value != "" {
      assert FindByEmail(db.users, user.primaryEmail.value).None?;
    }
    if !faults.lookup && !faults.create {
      assert r.users == db.users + [NewRow(user)];
    }
  }

  /** A user known only by e-mail, with an `updateUser` that works: that row
      now carries the provider's id, so the user is found by id afterwards
      and the next sync does nothing; the user has a profile unless the
      profile lookup or creation fails, which keeps the adopted row. A
      failing lookup or update leaves the table as it was. */
  lemma EmailMatchAdoptsRow(user: AuthUser, db: Db, faults: Faults, next: Faults, k: nat)
    requires FindById(db.users, user.id).None?
    requires user.primaryEmail.Some? && user.primaryEmail.value != ""
    requires FindByEmail(db.users, user.primaryEmail.value) == Some(k)
    ensures faults.lookup || faults.update ==> Sync(user, db, faults) == db
    ensures var r := Sync(user, db, faults);
            !faults.lookup && !faults.update ==>
            && |r.users| == |db.users|
            && r.users[k] == db.users[k].(id := user.id, name := Or(user.displayName, db.users[k].name))
            && FindById(r.users, user.id).Some?
            && Sync(user, r, next) == r
    ensures var r := Sync(user, db, faults);
            !faults.lookup && !faults.update ==>
            && (!faults.profileLookup && !faults.profileCreate ==> user.id in r.profiles)
            && (faults.profileLookup || faults.profileCreate ==> r.profiles == db.profiles)
  {
    var r := Sync(user, db, faults);
    if !faults.lookup && !faults.update {
      assert r.users[k].id == user.id;
    }
  }

  // ---------------------------------------------------------------------
  // Routing.

  /** The paths `config.matcher` sends to the middleware: each pattern
      `/x/:path*` matches `/x` itself and every path below `/x/`. */
  predicate Matched(pathname: string) {
    || pathname == "/dashboard" || StartsWith(pathname, "/dashboard/")
    || pathname == "/create/processing" || StartsWith(pathname, "/create/processing/")
  }

  /** The prefix test inside the middleware. */
  predicate IsProtected(pathname: string) {
    StartsWith(pathname, "/dashboard") || StartsWith(pathname, "/create/processing")
  }

  /** Every path the matcher lets through passes the prefix test. */
  lemma MatchedIsProtected(pathname: string)
    requires Matched(pathname)
    ensures IsProtected(pathname)
  {
    if StartsWith(pathname, "/dashboard/") {
      assert pathname[..10] == pathname[..11][..10];
    } else if StartsWith(pathname, "/create/processing/") {
      assert pathname[..18] == pathname[..19][..18];
    }
  }

  /** The routing decision. */
  function Route(signedIn: bool, pathname: string, search: string): (d: Decision)
    ensures d.Redirect? <==> !signedIn && IsProtected(pathname)
    ensures d.Redirect? ==> d.to == SignInPath && d.redirectUrl == pathname + search
  {
    if IsProtected(pathname) && !signedIn then Redirect(SignInPath, pathname + search) else Pass
  }

  /** `middleware` behind its matcher: an unmatched path passes with the
      database untouched; a matched one syncs a signed-in user, then
      redirects exactly the visitors who are not signed in. */
  function Handle(user: Option<AuthUser>, db: Db, faults: Faults, pathname: string, search: string): (r: (Decision, Db))
    ensures !Matched(pathname) ==> r == (Pass, db)
    ensures Matched(pathname) ==> r.0 == Route(user.Some?, pathname, search)
    ensures Matched(pathname) ==> (r.0.Redirect? <==> user.None?)
    ensures Matched(pathname) && user.None? ==> r.1 == db
    ensures Matched(pathname) && user.Some? ==> r.1 == Sync(user.value, db, faults)
  {
    if !Matched(pathname) then (Pass, db)
    else
      MatchedIsProtected(pathname);
      var db1 := if user.Some? then Sync(user.value, db, faults) else db;
      (Route(user.Some?, pathname, search), db1)
  }

  /** Whatever the database holds and whatever fails, the decision is the
      same: it depends only on whether someone is signed in and the path. */
  lemma DecisionIgnoresSync(user: Option<AuthUser>, db1: Db, db2: Db, f1: Faults, f2: Faults, pathname: string, search: string)
    ensures Handle(user, db1, f1, pathname, search).0 == Handle(user, db2, f2, pathname, search).0
  {
  }

  /** Every "/"-sub-path of a matched page is matched too. */
  lemma {:induction false} ProtectedBelow(pathname: string, rest: string)
    requires Matched(pathname)
    ensures Matched(pathname + "/" + rest)
  {
    var s := pathname + "/" + rest;
    if pathname == "/dashboard" {
      assert s[..11] == "/dashboard/";
    } else if StartsWith(pathname, "/dashboard/") {
      assert s[..11] == pathname[..11];
    } else if pathname == "/create/processing" {
      assert s[..19] == "/create/processing/";
    } else {
      assert s[..19] == pathname[..19];
    }
  }

  const Lookalike := "/dashboardx"

  /** A path that only shares the prefix, such as "/dashboardx", would fail
      the prefix test, but the matcher never sends it to the middleware: a
      visitor who is not signed in passes and nothing is written. */
  lemma LookalikePasses(db: Db, faults: Faults, search: string)
    ensures IsProtected(Lookalike) && !Matched(Lookalike)
    ensures Handle(None, db, faults, Lookalike, search) == (Pass, db)
  {
    assert Lookalike[..10] == "/dashboard";
    assert Lookalike[10] == 'x';
  }

  /** The sign-in page is neither matched nor protected, so the redirect
      cannot loop. */
  lemma SignInIsOpen()
    ensures !Matched(SignInPath) && !IsProtected(SignInPath)
  {
    assert SignInPath[..10][1] == 'h' && "/dashboard"[1] == 'd';
    assert |SignInPath| < |"/create/processing"|;
  }
}
