/**
 What becomes of a password: a login that replaces an aged hash (legacy_warehouse_service.cpp:108-124)
 and the startup checks (legacy_startup.cpp:69-131) leave everybody able to log in as before.
 */
module Logins {
  import opened Wrappers
  import opened Sql
  import opened Passwords
  import opened UseCases
  import LegacyStartup
  import Fields

  /** What is assumed of the library here: its hashes verify their password, and are not aged at once. */
  ghost predicate Library(h: Hasher) {
    forall password, n :: h.hash(password, n).Some? ==>
      h.verify(h.hash(password, n).value, password) && !h.needsRehash(h.hash(password, n).value)
  }

  lemma HashServes(h: Hasher, stored: string, password: string)
    requires Library(h) && HashOf(h, stored, password)
    ensures h.verify(stored, password) && !h.needsRehash(stored)
  {
  }

  /** Row i is the first one with the name. */
  predicate FirstNamed(users: seq<User>, i: nat, username: string) {
    i < |users| && users[i].username == username && forall j :: 0 <= j < i ==> users[j].username != username
  }

  lemma {:induction false} FoundAt(users: seq<User>, i: nat, username: string)
    requires FirstNamed(users, i, username)
    ensures UserNamed(users, username) == Some(users[i])
  {
    if i > 0 {
      FoundAt(users[1..], i - 1, username);
    }
  }

  lemma {:induction false} RowOf(users: seq<User>, username: string) returns (i: nat)
    requires UserNamed(users, username).Some?
    ensures FirstNamed(users, i, username) && UserNamed(users, username) == Some(users[i])
  {
    if users[0].username == username {
      i := 0;
    } else {
      var k := RowOf(users[1..], username);
      i := k + 1;
    }
  }

  lemma OneRowSet(users: seq<User>, i: nat, hash: string)
    requires LegacyStartup.DistinctIds(users) && i < |users|
    ensures SetPasswordOf(users, users[i].id, hash) == users[i := users[i].(password := hash)]
  {
  }

  /** Only the password of row i differs, and it is now a hash of the given one. */
  ghost predicate Renewed(before: Database, after: Database, i: nat, password: string, h: Hasher) {
    i < |before.users| && i < |after.users| && HashOf(h, after.users[i].password, password) &&
    after == before.(users := before.users[i := before.users[i].(password := after.users[i].password)])
  }

  /**
   A login that succeeds changes no row, unless the hash of its user has aged: then exactly that
   user's hash is replaced, by a hash of the password that was given.
   */
  lemma {:induction false} LoginRenews(s: Session, username: string, password: string, h: Hasher, i: nat)
    requires Fit(s) && LegacyStartup.DistinctIds(s.db.users) && FirstNamed(s.db.users, i, username)
    requires Login(s, username, password, h).1.Done?
    ensures
      var after := Login(s, username, password, h).0.db;
      if h.needsRehash(s.db.users[i].password) then Renewed(s.db, after, i, password, h) else after == s.db
  {
    hide Login, Fit;
    LoginIsAtomic(s, username, password, h);
    FoundAt(s.db.users, i, username);
    var after := Login(s, username, password, h).0.db;
    if h.needsRehash(s.db.users[i].password) {
      HashGiven(s, username, password, h);
      var hash := h.hash(password, 0).value;
      OneRowSet(s.db.users, i, hash);
      assert HashOf(h, hash, password);
    }
  }

  /** A hash that has aged lets nobody in before a new one has been made. */
  lemma HashGiven(s: Session, username: string, password: string, h: Hasher)
    requires Login(s, username, password, h).1.Done?
    requires Fit(s)
    requires h.needsRehash(UserNamed(s.db.users, username).value.password)
    ensures h.hash(password, 0).Some?
  {
  }

  /** Whoever got in once gets in again, under the same name and role, whatever the first login replaced. */
  lemma {:induction false} LoginAgain(s: Session, again: Session, username: string, password: string, h: Hasher)
    requires Fit(s) && LegacyStartup.DistinctIds(s.db.users) && Library(h)
    requires Login(s, username, password, h).1.Done?
    requires Fit(again) && Faultless(again) && again.db == Close(Login(s, username, password, h).0)
    ensures Login(again, username, password, h).1 == Login(s, username, password, h).1
  {
    hide Login, Fit, Faultless, Library;
    LoginIsAtomic(s, username, password, h);
    var i := RowOf(s.db.users, username);
    LoginRenews(s, username, password, h, i);
    var users := again.db.users;
    if h.needsRehash(s.db.users[i].password) {
      HashServes(h, users[i].password, password);
      FoundAt(users, i, username);
    }
    LoginAnswer(again, username, password, h);
    LoginIsAtomic(again, username, password, h);
  }

  /** A user with a hash that serves is let in by a database that answers. */
  lemma Enters(s: Session, i: nat, username: string, password: string, h: Hasher)
    requires Fit(s) && Faultless(s) && Library(h)
    requires FirstNamed(s.db.users, i, username) && HashOf(h, s.db.users[i].password, password)
    ensures Login(s, username, password, h).1 == Done(Principal(username, s.db.users[i].role))
  {
    hide Login, Fit, Faultless, Library;
    HashServes(h, s.db.users[i].password, password);
    FoundAt(s.db.users, i, username);
    LoginAnswer(s, username, password, h);
    LoginIsAtomic(s, username, password, h);
  }

  /**
   After startup checks that succeeded, a user whose password was stored as plaintext logs in with it,
   under the same name and role.
   */
  lemma {:induction false} StartThenLogin(s: Session, c: LegacyStartup.Configuration, h: Hasher,
                                          again: Session, i: nat)
    requires Fit(s) && Trusted(h) && Library(h) && LegacyStartup.Checked(s, c, h).1.None?
    requires Fit(again) && Faultless(again) && again.db == Close(LegacyStartup.Checked(s, c, h).0)
    requires i < |s.db.users| && FirstNamed(s.db.users, i, s.db.users[i].username)
    requires Classify(h, s.db.users[i].password).LegacyPlaintext?
    ensures
      var user := s.db.users[i];
      Login(again, user.username, user.password, h).1 == Done(Principal(user.username, user.role))
  {
    hide LegacyStartup.Checked, Login, Fit, Faultless, Library, Trusted, Classify, HashOf, LegacyStartup.Secured,
      LegacyStartup.Initial;
    LegacyStartup.AllOrNothing(s, c, h);
    var before, after := s.db.users, again.db.users;
    NamesKept(before, after, c, h, i, before[i].username);
    assert HashOf(h, after[..|before|][i].password, before[i].password);
    Enters(again, i, before[i].username, before[i].password, h);
  }

  lemma NamesKept(before: seq<User>, after: seq<User>, c: LegacyStartup.Configuration, h: Hasher, i: nat, name: string)
    requires LegacyStartup.Upgraded(before, after, c, h) && FirstNamed(before, i, name)
    ensures FirstNamed(after, i, name) && after[i].role == before[i].role
  {
    hide Classify, HashOf, LegacyStartup.Secured, LegacyStartup.Initial, LegacyStartup.Rehashed;
    forall j | 0 <= j <= i
      ensures LegacyStartup.SamePerson(before[j], after[j])
    {
      assert after[..|before|][j] == after[j];
    }
  }

  /** And the administrator that the checks have added logs in with the configured name and password. */
  lemma {:induction false} AdministratorEnters(s: Session, c: LegacyStartup.Configuration, h: Hasher, again: Session)
    requires Fit(s) && Trusted(h) && Library(h) && LegacyStartup.Checked(s, c, h).1.None?
    requires Fit(again) && Faultless(again) && again.db == Close(LegacyStartup.Checked(s, c, h).0)
    requires !LegacyStartup.HasAdministrator(s.db.users) && c.username.Some? && c.password.Some?
    requires forall u :: u in s.db.users ==> u.username != Fields.Normalized(c.username.value)
    ensures
      var name := Fields.Normalized(c.username.value);
      Login(again, name, c.password.value, h).1 == Done(Principal(name, "admin"))
  {
    hide LegacyStartup.Checked, Login, Fit, Faultless, Library, Trusted, Classify, HashOf, LegacyStartup.Secured,
      LegacyStartup.Rehashed, LegacyStartup.Credentials, Fields.Normalized;
    LegacyStartup.AllOrNothing(s, c, h);
    var before, after, name := s.db.users, again.db.users, Fields.Normalized(c.username.value);
    forall j | 0 <= j < |before|
      ensures after[j].username != name
    {
      assert after[..|before|][j] == after[j] && LegacyStartup.SamePerson(before[j], after[j]);
      assert before[j] in before;
    }
    Enters(again, |before|, name, c.password.value, h);
  }
}
