/**
 What each problem that the startup checks report says (legacy_startup.cpp:44-149), whatever fails:
 which row, which configured value, or which statement stood in the way.
 */
module StartupProblems {
  import opened Wrappers
  import opened Sql
  import opened Traces
  import opened Passwords
  import opened Transactions
  import opened LegacyStartup
  import UseCases
  import Fields

  /** A row whose hash could not be made, on some call. */
  ghost predicate Unhashable(h: Hasher, password: string) {
    exists n: nat :: h.hash(password, n).None?
  }

  /** The sweep ended with this problem; the log ends with the statement to blame, if there is one. */
  ghost predicate SweepBlames(rows: seq<User>, migrates: bool, h: Hasher, log: seq<Event>, problem: Problem) {
    match problem
    case InvalidHash => exists row :: row in rows && Classify(h, row.password).InvalidPasswordHash?
    case PlaintextPasswordsPresent =>
      !migrates && exists row :: row in rows && Classify(h, row.password).LegacyPlaintext?
    case PasswordHashFailed =>
      migrates &&
      exists row :: row in rows && Classify(h, row.password).LegacyPlaintext? && Unhashable(h, row.password)
    case PasswordMigrationFailed =>
      migrates &&
      exists row, hash :: row in rows && Classify(h, row.password).LegacyPlaintext? &&
        HashOf(h, hash, row.password) && Said(log, 1, SetPassword(row.id, hash), false)
    case _ => false
  }

  ghost predicate AdministratorBlames(rows: seq<User>, c: Configuration, h: Hasher, log: seq<Event>, problem: Problem) {
    match problem
    case AdministratorCheckFailed => Said(log, 1, CountAdministrators, false)
    case InitialAdministratorRequired => !HasAdministrator(rows) && (c.username.None? || c.password.None?)
    case InvalidInitialAdministrator =>
      !HasAdministrator(rows) && c.username.Some? && c.password.Some? &&
      !(1 <= |Fields.Normalized(c.username.value)| <= 64 && 12 <= |c.password.value| <= 128)
    case AdministratorPasswordHashFailed =>
      !HasAdministrator(rows) && c.password.Some? && Unhashable(h, c.password.value)
    case AdministratorCreateFailed =>
      !HasAdministrator(rows) && c.username.Some? && c.password.Some? &&
      exists hash :: HashOf(h, hash, c.password.value) &&
        Said(log, 1, AddAdministrator(Fields.Normalized(c.username.value), hash), false)
    case _ => false
  }

  lemma RowBlames(s: Session, db: Database, i: nat, hashes: nat, migrates: bool, h: Hasher)
    requires Migrating(s, db, i, h) && i < |db.users| && DistinctIds(db.users) && Trusted(h)
    ensures
      var p := SweptRow(s, db.users[i], hashes, migrates, h);
      p.failure.Some? ==> SweepBlames(db.users, migrates, h, p.session.log, p.failure.value)
  {
    hide Send, Said, UseCases.Inside, PasswordsChanged, Trusted;
    var row, users := db.users[i], View(s).users;
    if Classify(h, row.password).LegacyPlaintext? && migrates {
      if h.hash(row.password, hashes).None? {
        assert Unhashable(h, row.password);
      } else {
        var hash := h.hash(row.password, hashes).value;
        HashIsTrusted(h, row.password, hashes);
        assert HashOf(h, hash, row.password);
        SentSaid(s, SetPassword(row.id, hash));
        assert DistinctIds(users) by {
          assert forall j :: 0 <= j < |users| ==> SamePerson(db.users[j], users[j]);
        }
        ChangedOnce(users, i, hash);
      }
    }
  }

  lemma {:induction false} SweptBlames(s: Session, db: Database, i: nat, hashes: nat, migrates: bool, h: Hasher)
    requires Migrating(s, db, i, h) && DistinctIds(db.users) && Trusted(h)
    ensures
      var p := Swept(s, db.users[i..], hashes, migrates, h);
      p.failure.Some? ==> SweepBlames(db.users, migrates, h, p.session.log, p.failure.value)
    decreases |db.users| - i
  {
    hide SweptRow, Migrating, Trusted, SweepBlames;
    Bounded(s, db, i, h);
    if i < |db.users| {
      var one := SweptRow(s, db.users[i], hashes, migrates, h);
      RowKeeps(s, db, i, hashes, migrates, h);
      RowBlames(s, db, i, hashes, migrates, h);
      assert db.users[i..][0] == db.users[i] && db.users[i..][1..] == db.users[i + 1..];
      if one.failure.None? {
        SweptBlames(one.session, db, i + 1, one.hashes, migrates, h);
      }
    }
  }

  lemma AdministeredBlames(s: Session, db: Database, hashes: nat, c: Configuration, h: Hasher)
    requires Migrating(s, db, |db.users|, h)
    ensures
      var p := Administered(s, hashes, c, h);
      p.failure.Some? ==> AdministratorBlames(db.users, c, h, p.session.log, p.failure.value)
  {
    hide Send, Said, UseCases.Inside, Fields.Normalized, Classify, Administrators, HasAdministrator, SamePeople;
    var counted := Send(s, CountAdministrators);
    SentSaid(s, CountAdministrators);
    UseCases.Sent(s, db, CountAdministrators);
    AdministratorsFound(View(s).users);
    SamePeopleAdministrators(db.users, View(s).users, h);
    if c.username.Some? && c.password.Some? {
      var made := h.hash(c.password.value, hashes);
      if made.None? {
        assert Unhashable(h, c.password.value);
      } else {
        assert HashOf(h, made.value, c.password.value);
        SentSaid(counted.0, AddAdministrator(Fields.Normalized(c.username.value), made.value));
      }
    }
  }

  ghost predicate Blames(rows: seq<User>, c: Configuration, h: Hasher, log: seq<Event>, problem: Problem) {
    (problem.PasswordScanFailed? && Said(log, 1, ReadUsers, false)) ||
    SweepBlames(rows, c.migratePlaintextPasswords, h, log, problem) ||
    AdministratorBlames(rows, c, h, log, problem)
  }

  lemma PreparedBlames(s: Session, db: Database, c: Configuration, h: Hasher)
    requires UseCases.Inside(s, db) && !s.poisoned && View(s) == db && DistinctIds(db.users) && Trusted(h)
    ensures
      var p := Prepared(s, c, h);
      p.failure.Some? ==> Blames(db.users, c, h, p.session.log, p.failure.value)
  {
    hide Send, Said, Swept, Administered, UseCases.Inside, Classify, Trusted, SweepBlames, AdministratorBlames;
    SentSaid(s, ReadUsers);
    UseCases.Sent(s, db, ReadUsers);
    UseCases.AnsweredLives(s, ReadUsers);
    var scanned := Send(s, ReadUsers);
    if scanned.1 {
      assert db == db.(users := db.users);
      assert Migrating(scanned.0, db, 0, h);
      assert db.users[0..] == db.users;
      SweptKeeps(scanned.0, db, 0, 0, c.migratePlaintextPasswords, h);
      SweptBlames(scanned.0, db, 0, 0, c.migratePlaintextPasswords, h);
      var swept := Swept(scanned.0, db.users, 0, c.migratePlaintextPasswords, h);
      if swept.failure.None? {
        AdministeredBlames(swept.session, db, swept.hashes, c, h);
      }
    }
  }

  /** The log without its last statement. */
  function ButLast(log: seq<Event>): seq<Event>
    requires log != []
  {
    log[..|log| - 1]
  }

  /**
   Every problem is what it says, whatever else fails: a transaction that did not begin, a COMMIT
   without an answer, or else one ROLLBACK behind the row, the configured value or the unanswered
   statement that the problem names.
   */
  lemma {:induction false} ProblemIsTrue(s: Session, c: Configuration, h: Hasher)
    requires Fit(s) && DistinctIds(s.db.users) && Trusted(h)
    ensures
      var (t, problem) := Checked(s, c, h);
      problem.Some? ==>
        t.log != [] &&
        match problem.value
        case TransactionStartFailed => Said(t.log, 1, SetIsolation, false) || Said(t.log, 1, Start, false)
        case CommitFailed => Said(t.log, 1, Commit, false)
        case _ => t.log[|t.log| - 1].stmt == Rollback && Blames(s.db.users, c, h, ButLast(t.log), problem.value)
  {
    hide Send, Said, BeginOn, Prepared, Trusted, SweepBlames, AdministratorBlames;
    UseCases.Begun(s);
    BeginSaid(s);
    var begun := BeginOn(s).0;
    if BeginOn(s).1 {
      PreparedBlames(begun, s.db, c, h);
      var prepared := Prepared(begun, c, h);
      if prepared.failure.Some? {
        NotAboutTheEnds(s.db.users, c, h, prepared.session.log, prepared.failure.value);
        var last := Event(Rollback, NextFate(prepared.session));
        assert Send(prepared.session, Rollback).0.log == prepared.session.log + [last];
      } else {
        SentSaid(prepared.session, Commit);
      }
    }
  }

  lemma NotAboutTheEnds(rows: seq<User>, c: Configuration, h: Hasher, log: seq<Event>, problem: Problem)
    requires Blames(rows, c, h, log, problem)
    ensures !problem.TransactionStartFailed? && !problem.CommitFailed?
  {
  }

  lemma BeginSaid(s: Session)
    ensures
      var r := BeginOn(s);
      !r.1 ==> r.0.log != [] && (Said(r.0.log, 1, SetIsolation, false) || Said(r.0.log, 1, Start, false))
  {
    hide Send;
    SentSaid(s, SetIsolation);
    SentSaid(Send(s, SetIsolation).0, Start);
  }
}
