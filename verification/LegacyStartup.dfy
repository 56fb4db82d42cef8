/**
 The startup checks on stored passwords and administrators (legacy_startup.cpp:44-149), all in one
 transaction: as a function of the session, and as the method that sends the statements.
 */
module LegacyStartup {
  import opened Wrappers
  import opened Sql
  import opened Passwords
  import opened Transactions
  import opened ConnectionPools
  import UseCases
  import Fields

  datatype Configuration = Configuration(
    migratePlaintextPasswords: bool,
    username: Option<string>,
    password: Option<string>)

  datatype Problem =
    | DatabaseUnavailable
    | TransactionStartFailed
    | PasswordScanFailed
    | InvalidHash
    | PlaintextPasswordsPresent
    | PasswordHashFailed
    | PasswordMigrationFailed
    | AdministratorCheckFailed
    | InitialAdministratorRequired
    | InvalidInitialAdministrator
    | AdministratorPasswordHashFailed
    | AdministratorCreateFailed
    | CommitFailed

  // ---- What is sent ----

  datatype Progress = Progress(session: Session, failure: Option<Problem>, hashes: nat)

  /** One stored row; `hashes` counts the calls of the hash function so far. */
  function SweptRow(s: Session, row: User, hashes: nat, migrates: bool, h: Hasher): Progress {
    match Classify(h, row.password)
    case InvalidPasswordHash => Progress(s, Some(InvalidHash), hashes)
    case PasswordHash => Progress(s, None, hashes)
    case LegacyPlaintext =>
      if !migrates then Progress(s, Some(PlaintextPasswordsPresent), hashes)
      else
        var hash := h.hash(row.password, hashes);
        if hash.None? then Progress(s, Some(PasswordHashFailed), hashes + 1)
        else
          var updated := Send(s, SetPassword(row.id, hash.value));
          var changed := PasswordsChanged(View(s).users, row.id, hash.value);
          Progress(updated.0, if updated.1 && changed == 1 then None else Some(PasswordMigrationFailed), hashes + 1)
  }

  function Swept(s: Session, rows: seq<User>, hashes: nat, migrates: bool, h: Hasher): Progress
    decreases |rows|
  {
    if rows == [] then Progress(s, None, hashes)
    else
      var one := SweptRow(s, rows[0], hashes, migrates, h);
      if one.failure.Some? then one else Swept(one.session, rows[1..], one.hashes, migrates, h)
  }

  function Administrators(users: seq<User>): nat {
    if users == [] then 0 else (if users[0].role == "admin" then 1 else 0) + Administrators(users[1..])
  }

  predicate Credentials(c: Configuration) {
    c.username.Some? && c.password.Some? &&
    1 <= |Fields.Normalized(c.username.value)| <= 64 && 12 <= |c.password.value| <= 128
  }

  /** Makes sure that there is an administrator. */
  function Administered(s: Session, hashes: nat, c: Configuration, h: Hasher): Progress {
    var counted := Send(s, CountAdministrators);
    if !counted.1 then Progress(counted.0, Some(AdministratorCheckFailed), hashes)
    else if Administrators(View(counted.0).users) > 0 then Progress(counted.0, None, hashes)
    else if c.username.None? || c.password.None? then
      Progress(counted.0, Some(InitialAdministratorRequired), hashes)
    else if !Credentials(c) then Progress(counted.0, Some(InvalidInitialAdministrator), hashes)
    else
      var hash := h.hash(c.password.value, hashes);
      if hash.None? then Progress(counted.0, Some(AdministratorPasswordHashFailed), hashes + 1)
      else
        var inserted := Send(counted.0, AddAdministrator(Fields.Normalized(c.username.value), hash.value));
        Progress(inserted.0, if inserted.1 then None else Some(AdministratorCreateFailed), hashes + 1)
  }

  function Prepared(s: Session, c: Configuration, h: Hasher): Progress {
    var scanned := Send(s, ReadUsers);
    if !scanned.1 then Progress(scanned.0, Some(PasswordScanFailed), 0)
    else
      var swept := Swept(scanned.0, View(scanned.0).users, 0, c.migratePlaintextPasswords, h);
      if swept.failure.Some? then swept else Administered(swept.session, swept.hashes, c, h)
  }

  /** What the checks do to the session, and what they report; no failure means that all is well. */
  function Checked(s: Session, c: Configuration, h: Hasher): (Session, Option<Problem>) {
    var begun := BeginOn(s);
    if !begun.1 then (begun.0, Some(TransactionStartFailed))
    else
      var prepared := Prepared(begun.0, c, h);
      if prepared.failure.Some? then (RollbackOn(prepared.session), prepared.failure)
      else
        var committed := CommitOn(prepared.session);
        (committed.0, if committed.1 then None else Some(CommitFailed))
  }

  // ---- The method ----

  method Sweep(executor: SqlExecutor, rows: seq<User>, migrates: bool, h: Hasher)
      returns (failure: Option<Problem>, hashes: nat)
    modifies executor
    ensures Progress(executor.session, failure, hashes) == Swept(old(executor.session), rows, 0, migrates, h)
  {
    hide Send, PasswordsChanged, Classify;
    hashes := 0;
    for i := 0 to |rows|
      invariant Swept(executor.session, rows[i..], hashes, migrates, h) ==
                Swept(old(executor.session), rows, 0, migrates, h)
    {
      var row := rows[i];
      assert rows[i..][0] == row && rows[i..][1..] == rows[i + 1..];
      var kind := Classify(h, row.password);
      if kind.InvalidPasswordHash? {
        return Some(InvalidHash), hashes;
      }
      if kind.LegacyPlaintext? {
        if !migrates {
          return Some(PlaintextPasswordsPresent), hashes;
        }
        var hash := h.hash(row.password, hashes);
        hashes := hashes + 1;
        if hash.None? {
          return Some(PasswordHashFailed), hashes;
        }
        var changed := PasswordsChanged(View(executor.session).users, row.id, hash.value);
        var updated := executor.Execute(SetPassword(row.id, hash.value));
        if !updated || changed != 1 {
          return Some(PasswordMigrationFailed), hashes;
        }
      }
    }
    failure := None;
  }

  method EnsureAdministrator(executor: SqlExecutor, calls: nat, c: Configuration, h: Hasher)
      returns (failure: Option<Problem>, ghost hashes: nat)
    modifies executor
    ensures Progress(executor.session, failure, hashes) == Administered(old(executor.session), calls, c, h)
  {
    hide Send, Fields.Normalized, Administrators;
    hashes := calls;
    var counted := executor.Execute(CountAdministrators);
    if !counted {
      return Some(AdministratorCheckFailed), hashes;
    }
    var count := Administrators(View(executor.session).users);
    if count == 0 {
      if c.username.None? || c.password.None? {
        return Some(InitialAdministratorRequired), hashes;
      }
      var username := Fields.Normalize(c.username.value);
      var password := c.password.value;
      if username == "" || |username| > 64 || |password| < 12 || |password| > 128 {
        return Some(InvalidInitialAdministrator), hashes;
      }
      var hash := h.hash(password, calls);
      hashes := calls + 1;
      if hash.None? {
        return Some(AdministratorPasswordHashFailed), hashes;
      }
      var inserted := executor.Execute(AddAdministrator(username, hash.value));
      if !inserted {
        return Some(AdministratorCreateFailed), hashes;
      }
    }
    failure := None;
  }

  method Prepare(executor: SqlExecutor, c: Configuration, h: Hasher) returns (failure: Option<Problem>)
    modifies executor
    ensures executor.session == Prepared(old(executor.session), c, h).session
    ensures failure == Prepared(old(executor.session), c, h).failure
  {
    hide Send, Swept, Administered;
    var scanned := executor.Execute(ReadUsers);
    if !scanned {
      return Some(PasswordScanFailed);
    }
    var hashes;
    failure, hashes := Sweep(executor, View(executor.session).users, c.migratePlaintextPasswords, h);
    if failure.None? {
      ghost var calls;
      failure, calls := EnsureAdministrator(executor, hashes, c, h);
    }
  }

  method RunLegacyStartupChecks(pool: ConnectionPool, created: Option<SqlExecutor>, c: Configuration, h: Hasher)
      returns (failure: Option<Problem>)
    modifies pool, pool.Ward(created)
    ensures old(pool.Chosen(created)).None? ==>
      failure == Some(DatabaseUnavailable) && pool.State() == old(pool.State())
    ensures old(pool.Chosen(created)).Some? ==>
      var e := old(pool.Chosen(created)).value;
      e.session == Checked(old(e.session), c, h).0 && failure == Checked(old(e.session), c, h).1 &&
      pool.State() == Returned(Taken(old(pool.State())).0, e, !e.session.poisoned)
  {
    hide Send, Prepared, BeginOn, CommitOn, RollbackOn;
    var lease := pool.Acquire(created);
    if lease.None? {
      return Some(DatabaseUnavailable);
    }
    var executor := lease.value.executor;
    var transaction := Transaction.Begin(executor);
    if transaction.None? {
      lease.value.Release();
      return Some(TransactionStartFailed);
    }
    failure := Prepare(executor, c, h);
    if failure.Some? {
      transaction.value.DoRollback();
    } else {
      var committed := transaction.value.DoCommit();
      if !committed {
        failure := Some(CommitFailed);
      }
    }
    transaction.value.Destroy();
    lease.value.Release();
  }

  // ---- What the checks promise about the rows ----

  /** Ids are the primary key of the table. */
  predicate DistinctIds(users: seq<User>) {
    forall i, j :: 0 <= i < j < |users| ==> users[i].id != users[j].id
  }

  predicate SamePerson(a: User, b: User) {
    a.id == b.id && a.username == b.username && a.role == b.role
  }

  /** Ids, names and roles are kept row by row, and so is every password that was a hash already. */
  predicate SamePeople(before: seq<User>, after: seq<User>, h: Hasher) {
    |before| == |after| &&
    (forall i :: 0 <= i < |before| ==> SamePerson(before[i], after[i])) &&
    (forall i :: 0 <= i < |before| && Classify(h, before[i].password).PasswordHash? ==> after[i] == before[i])
  }

  predicate Hashed(users: seq<User>, n: nat, h: Hasher)
    requires n <= |users|
  {
    forall i :: 0 <= i < n ==> Classify(h, users[i].password).PasswordHash?
  }

  predicate HasAdministrator(users: seq<User>) {
    exists i :: 0 <= i < |users| && users[i].role == "admin"
  }

  /** What the listener may rely on. */
  predicate Secured(users: seq<User>, h: Hasher) {
    Hashed(users, |users|, h) && HasAdministrator(users)
  }

  /** Each of the first n rows that held a plaintext password now holds a hash of that password. */
  ghost predicate Rehashed(before: seq<User>, after: seq<User>, n: nat, h: Hasher)
    requires |after| == |before| && n <= |before|
  {
    forall i :: 0 <= i < n && Classify(h, before[i].password).LegacyPlaintext? ==>
      HashOf(h, after[i].password, before[i].password)
  }

  /** The row of the configured administrator, under a new id. */
  ghost predicate Initial(row: User, before: seq<User>, c: Configuration, h: Hasher) {
    Credentials(c) && row.role == "admin" && row.username == Fields.Normalized(c.username.value) &&
    HashOf(h, row.password, c.password.value) && forall u :: u in before ==> u.id < row.id
  }

  /** The old rows, everybody hashed, and the configured administrator exactly if there was none. */
  ghost predicate Upgraded(before: seq<User>, after: seq<User>, c: Configuration, h: Hasher) {
    |before| <= |after| && SamePeople(before, after[..|before|], h) && Secured(after, h) &&
    Rehashed(before, after[..|before|], |before|, h) &&
    if HasAdministrator(before) then |after| == |before|
    else |after| == |before| + 1 && Initial(after[|before|], before, c, h)
  }

  predicate Changes(u: User, id: nat, hash: string) {
    u.id == id && u.password != hash
  }

  lemma {:induction false} OneChange(users: seq<User>, i: nat, id: nat, hash: string)
    requires i < |users| && Changes(users[i], id, hash)
    ensures PasswordsChanged(users, id, hash) >= 1
  {
    if i > 0 {
      OneChange(users[1..], i - 1, id, hash);
    }
  }

  lemma {:induction false} TwoChanges(users: seq<User>, i: nat, j: nat, id: nat, hash: string)
    requires i < j < |users| && Changes(users[i], id, hash) && Changes(users[j], id, hash)
    ensures PasswordsChanged(users, id, hash) >= 2
  {
    if i == 0 {
      OneChange(users[1..], j - 1, id, hash);
    } else {
      TwoChanges(users[1..], i - 1, j - 1, id, hash);
    }
  }

  /** An update that reports one changed row has changed the row it was meant for, and no other. */
  lemma OnlyThatRow(users: seq<User>, i: nat, hash: string)
    requires i < |users| && users[i].password != hash
    requires PasswordsChanged(users, users[i].id, hash) == 1
    ensures SetPasswordOf(users, users[i].id, hash) == users[i := users[i].(password := hash)]
  {
    var id := users[i].id;
    forall j | 0 <= j < |users| && j != i
      ensures !Changes(users[j], id, hash)
    {
      if Changes(users[j], id, hash) {
        TwoChanges(users, if i < j then i else j, if i < j then j else i, id, hash);
      }
    }
  }

  lemma {:induction false} ChangedOnce(users: seq<User>, i: nat, hash: string)
    requires DistinctIds(users) && i < |users|
    ensures PasswordsChanged(users, users[i].id, hash) == if users[i].password != hash then 1 else 0
  {
    if i == 0 {
      NoneChanged(users[1..], users[0].id, hash);
    } else {
      ChangedOnce(users[1..], i - 1, hash);
    }
  }

  lemma {:induction false} NoneChanged(users: seq<User>, id: nat, hash: string)
    requires forall i :: 0 <= i < |users| ==> users[i].id != id
    ensures PasswordsChanged(users, id, hash) == 0
  {
    if users != [] {
      NoneChanged(users[1..], id, hash);
    }
  }

  lemma {:induction false} AdministratorsFound(users: seq<User>)
    ensures Administrators(users) > 0 <==> HasAdministrator(users)
  {
    if users != [] {
      var rest := users[1..];
      AdministratorsFound(rest);
      if users[0].role != "admin" {
        if HasAdministrator(rest) {
          var i :| 0 <= i < |rest| && rest[i].role == "admin";
          assert users[i + 1].role == "admin";
        }
        if HasAdministrator(users) {
          var i :| 0 <= i < |users| && users[i].role == "admin";
          assert rest[i - 1].role == "admin";
        }
      }
    }
  }

  /** UseCases.Inside the transaction the first i rows have been dealt with, and the others are untouched. */
  ghost predicate Migrating(s: Session, db: Database, i: nat, h: Hasher) {
    var rows, users := db.users, View(s).users;
    UseCases.Inside(s, db) && !s.poisoned && View(s) == db.(users := users) &&
    SamePeople(rows, users, h) && i <= |rows| && Hashed(users, i, h) && Rehashed(rows, users, i, h) &&
    forall j :: i <= j < |rows| ==> users[j] == rows[j]
  }

  lemma RowRehashed(before: seq<User>, users: seq<User>, i: nat, calls: nat, h: Hasher)
    requires |users| == |before| && i < |before| && Rehashed(before, users, i, h)
    requires h.hash(before[i].password, calls).Some?
    ensures
      var hash := h.hash(before[i].password, calls).value;
      Rehashed(before, users[i := users[i].(password := hash)], i + 1, h)
  {
    hide Classify;
    var hash := h.hash(before[i].password, calls).value;
    assert HashOf(h, hash, before[i].password);
  }

  lemma RowKeeps(s: Session, db: Database, i: nat, hashes: nat, migrates: bool, h: Hasher)
    requires Migrating(s, db, i, h) && i < |db.users| && Trusted(h)
    ensures
      var p := SweptRow(s, db.users[i], hashes, migrates, h);
      UseCases.Inside(p.session, db) && (p.failure.None? ==> Migrating(p.session, db, i + 1, h))
  {
    hide Send, Classify, UseCases.Inside, PasswordsChanged, SetPasswordOf;
    var row := db.users[i];
    if Classify(h, row.password).LegacyPlaintext? && migrates && h.hash(row.password, hashes).Some? {
      var stmt := SetPassword(row.id, h.hash(row.password, hashes).value);
      UseCases.Sent(s, db, stmt);
      UseCases.AnsweredLives(s, stmt);
      HashIsTrusted(h, row.password, hashes);
      if PasswordsChanged(View(s).users, row.id, stmt.hash) == 1 {
        OnlyThatRow(View(s).users, i, stmt.hash);
        RowRehashed(db.users, View(s).users, i, hashes, h);
      }
    }
  }

  lemma {:induction false} SweptKeeps(s: Session, db: Database, i: nat, hashes: nat, migrates: bool, h: Hasher)
    requires Migrating(s, db, i, h) && Trusted(h)
    ensures
      var p := Swept(s, db.users[i..], hashes, migrates, h);
      UseCases.Inside(p.session, db) && (p.failure.None? ==> Migrating(p.session, db, |db.users|, h))
    decreases |db.users| - i
  {
    if i < |db.users| {
      hide SweptRow, Migrating, Trusted, UseCases.Inside;
      var one := SweptRow(s, db.users[i], hashes, migrates, h);
      Bounded(s, db, i, h);
      RowKeeps(s, db, i, hashes, migrates, h);
      assert db.users[i..][0] == db.users[i] && db.users[i..][1..] == db.users[i + 1..];
      if one.failure.None? {
        SweptKeeps(one.session, db, i + 1, one.hashes, migrates, h);
      }
    } else {
      Bounded(s, db, i, h);
    }
  }

  lemma Bounded(s: Session, db: Database, i: nat, h: Hasher)
    requires Migrating(s, db, i, h)
    ensures i <= |db.users| && UseCases.Inside(s, db)
  {
  }

  /** The working copy holds what the checks promise. */
  ghost predicate ToCommit(s: Session, db: Database, c: Configuration, h: Hasher) {
    UseCases.Inside(s, db) && !s.poisoned && View(s) == db.(users := View(s).users) &&
    Upgraded(db.users, View(s).users, c, h)
  }

  lemma InsertedKeeps(s: Session, db: Database, hash: string, c: Configuration, h: Hasher)
    requires Migrating(s, db, |db.users|, h) && !HasAdministrator(View(s).users)
    requires Credentials(c) && Classify(h, hash).PasswordHash? && HashOf(h, hash, c.password.value)
    ensures
      var r := Send(s, AddAdministrator(Fields.Normalized(c.username.value), hash));
      UseCases.Inside(r.0, db) && (r.1 ==> ToCommit(r.0, db, c, h))
  {
    hide Send, UseCases.Inside, Classify, Upgraded, SamePeople, HasAdministrator, FreshUserId, Rehashed, HashOf,
      Fields.Normalized, Initial;
    var users, name := View(s).users, Fields.Normalized(c.username.value);
    UseCases.Sent(s, db, AddAdministrator(name, hash));
    UseCases.AnsweredLives(s, AddAdministrator(name, hash));
    SamePeopleAdministrators(db.users, users, h);
    SameLength(db.users, users, h);
    var row := User(FreshUserId(users), name, hash, "admin");
    NewRow(db.users, users, row, c, h);
    OneAdded(db.users, users, row, c, h);
  }

  lemma CountedKeeps(s: Session, db: Database, c: Configuration, h: Hasher)
    requires Migrating(s, db, |db.users|, h)
    ensures
      var r := Send(s, CountAdministrators);
      UseCases.Inside(r.0, db) &&
      (r.1 ==> Migrating(r.0, db, |db.users|, h)) &&
      (r.1 && HasAdministrator(View(r.0).users) ==> ToCommit(r.0, db, c, h))
  {
    hide Send, UseCases.Inside, Classify, Upgraded, SamePeople, HasAdministrator, Rehashed;
    UseCases.Sent(s, db, CountAdministrators);
    UseCases.AnsweredLives(s, CountAdministrators);
    SameLength(db.users, View(s).users, h);
    if HasAdministrator(View(s).users) {
      NobodyAdded(db.users, View(s).users, c, h);
    }
  }

  lemma AdministeredKeeps(s: Session, db: Database, hashes: nat, c: Configuration, h: Hasher)
    requires Migrating(s, db, |db.users|, h) && Trusted(h)
    ensures
      var p := Administered(s, hashes, c, h);
      UseCases.Inside(p.session, db) && (p.failure.None? ==> ToCommit(p.session, db, c, h))
  {
    hide Send, UseCases.Inside, Fields.Normalized, Classify, Administrators, Trusted, ToCommit, Migrating,
      HasAdministrator;
    CountedKeeps(s, db, c, h);
    var counted := Send(s, CountAdministrators);
    AdministratorsFound(View(counted.0).users);
    if counted.1 && !HasAdministrator(View(counted.0).users) && Credentials(c) &&
       h.hash(c.password.value, hashes).Some? {
      HashIsTrusted(h, c.password.value, hashes);
      InsertedKeeps(counted.0, db, h.hash(c.password.value, hashes).value, c, h);
    }
  }

  lemma SameLength(before: seq<User>, users: seq<User>, h: Hasher)
    requires SamePeople(before, users, h)
    ensures |users| == |before|
  {
  }

  lemma NobodyAdded(before: seq<User>, users: seq<User>, c: Configuration, h: Hasher)
    requires SamePeople(before, users, h) && Hashed(users, |users|, h) && HasAdministrator(users)
    requires Rehashed(before, users, |before|, h)
    ensures Upgraded(before, users, c, h)
  {
    hide Classify, HashOf, Initial;
    SamePeopleAdministrators(before, users, h);
    assert users[..|before|] == users;
  }

  lemma NewRow(before: seq<User>, users: seq<User>, row: User, c: Configuration, h: Hasher)
    requires SamePeople(before, users, h) && Credentials(c) && row.role == "admin"
    requires row.username == Fields.Normalized(c.username.value) && HashOf(h, row.password, c.password.value)
    requires forall u :: u in users ==> u.id < row.id
    ensures Initial(row, before, c, h)
  {
    hide Classify, HashOf, Fields.Normalized, Credentials;
    forall u | u in before
      ensures u.id < row.id
    {
      var i :| 0 <= i < |before| && before[i] == u;
      assert SamePerson(before[i], users[i]) && users[i] in users;
    }
  }

  lemma OneAdded(before: seq<User>, users: seq<User>, row: User, c: Configuration, h: Hasher)
    requires SamePeople(before, users, h) && Hashed(users, |users|, h) && !HasAdministrator(before)
    requires Rehashed(before, users, |before|, h) && Initial(row, before, c, h)
    requires row.role == "admin" && Classify(h, row.password).PasswordHash?
    ensures Upgraded(before, users + [row], c, h)
  {
    hide Classify, HashOf, Initial;
    assert (users + [row])[..|before|] == users;
    assert (users + [row])[|users|].role == "admin";
  }

  lemma HashIsTrusted(h: Hasher, password: string, n: nat)
    requires Trusted(h) && h.hash(password, n).Some?
    ensures Classify(h, h.hash(password, n).value).PasswordHash?
  {
  }

  lemma SamePeopleAdministrators(before: seq<User>, after: seq<User>, h: Hasher)
    requires SamePeople(before, after, h)
    ensures HasAdministrator(before) <==> HasAdministrator(after)
  {
    hide Classify;
    if HasAdministrator(before) {
      var i :| 0 <= i < |before| && before[i].role == "admin";
      assert SamePerson(before[i], after[i]) && after[i].role == "admin";
    }
    if HasAdministrator(after) {
      var i :| 0 <= i < |after| && after[i].role == "admin";
      assert SamePerson(before[i], after[i]) && before[i].role == "admin";
    }
  }

  lemma PreparedKeeps(s: Session, db: Database, c: Configuration, h: Hasher)
    requires UseCases.Inside(s, db) && !s.poisoned && View(s) == db && Trusted(h)
    ensures
      var p := Prepared(s, c, h);
      UseCases.Inside(p.session, db) && (p.failure.None? ==> ToCommit(p.session, db, c, h))
  {
    hide Send, Swept, Administered, UseCases.Inside, ToCommit, Classify, Trusted;
    UseCases.Sent(s, db, ReadUsers);
    UseCases.AnsweredLives(s, ReadUsers);
    var scanned := Send(s, ReadUsers);
    if scanned.1 {
      assert db == db.(users := db.users);
      assert Migrating(scanned.0, db, 0, h);
      assert db.users[0..] == db.users;
      SweptKeeps(scanned.0, db, 0, 0, c.migratePlaintextPasswords, h);
      var swept := Swept(scanned.0, db.users, 0, c.migratePlaintextPasswords, h);
      if swept.failure.None? {
        AdministeredKeeps(swept.session, db, swept.hashes, c, h);
      }
    }
  }

  /**
   All or nothing: success means that every plaintext password has become a hash of itself, that
   the old rows kept their ids, names, roles and hashes, and that the configured administrator was
   added exactly if there was none; a failure other than of COMMIT leaves the rows as they were, and
   a failed COMMIT leaves all of the change or none.
   */
  lemma {:induction false} AllOrNothing(s: Session, c: Configuration, h: Hasher)
    requires Fit(s) && Trusted(h)
    ensures
      var r := Checked(s, c, h);
      var changed := r.0.db == s.db.(users := r.0.db.users) && Upgraded(s.db.users, r.0.db.users, c, h);
      (r.1.None? ==> changed && Fit(r.0)) &&
      (r.1.Some? ==> r.0.db == s.db || (r.1 == Some(CommitFailed) && changed)) &&
      (r.0.poisoned || Fit(r.0))
  {
    hide Send, BeginOn, Prepared, CommitOn, RollbackOn, Upgraded, Trusted;
    UseCases.Begun(s);
    var begun := BeginOn(s);
    if begun.1 {
      PreparedKeeps(begun.0, s.db, c, h);
      var prepared := Prepared(begun.0, c, h);
      if prepared.failure.Some? {
        UseCases.GaveUp<bool>(prepared.session, s, UseCases.ReadFailed, s.db);
      } else {
        UseCases.EndedCommitting(prepared.session, s, true, UseCases.ReadFailed);
      }
    }
  }

  // ---- Once secured, always secured ----

  lemma {:induction false} SweptSecured(s: Session, rows: seq<User>, hashes: nat, migrates: bool, h: Hasher)
    requires Hashed(rows, |rows|, h)
    ensures Swept(s, rows, hashes, migrates, h) == Progress(s, None, hashes)
  {
    hide Classify;
    if rows != [] {
      SweptSecured(s, rows[1..], hashes, migrates, h);
    }
  }

  lemma PreparedSecured(s: Session, db: Database, c: Configuration, h: Hasher)
    requires UseCases.Inside(s, db) && !s.poisoned && View(s) == db && Secured(db.users, h)
    ensures
      var p := Prepared(s, c, h);
      UseCases.Inside(p.session, db) && (p.failure.None? ==> !p.session.poisoned && View(p.session) == db) &&
      (Faultless(s) ==> p.failure.None? && Faultless(p.session))
  {
    hide Send, UseCases.Inside, Classify, Administrators, Faultless, Swept, Fields.Normalized;
    var scanned := Send(s, ReadUsers);
    UseCases.Sent(s, db, ReadUsers);
    UseCases.AnsweredLives(s, ReadUsers);
    SweptSecured(scanned.0, db.users, 0, c.migratePlaintextPasswords, h);
    AdministratorsFound(db.users);
    if scanned.1 {
      UseCases.Sent(scanned.0, db, CountAdministrators);
      UseCases.AnsweredLives(scanned.0, CountAdministrators);
    }
    if Faultless(s) {
      AnsweredSend(s, ReadUsers);
      AnsweredSend(scanned.0, CountAdministrators);
    }
  }

  /**
   On secured rows the checks never change anything, whatever fails; and they succeed when nothing
   does, with any configuration. A second start therefore needs no permission to migrate.
   */
  lemma {:induction false} SecondRun(s: Session, c: Configuration, h: Hasher)
    requires Fit(s) && Secured(s.db.users, h)
    ensures Checked(s, c, h).0.db == s.db
    ensures Faultless(s) ==> Checked(s, c, h).1.None?
  {
    hide Send, BeginOn, Prepared, CommitOn, RollbackOn, Faultless;
    UseCases.Begun(s);
    var begun := BeginOn(s);
    if begun.1 {
      PreparedSecured(begun.0, s.db, c, h);
      var prepared := Prepared(begun.0, c, h);
      if prepared.failure.Some? {
        UseCases.GaveUp<bool>(prepared.session, s, UseCases.ReadFailed, s.db);
      } else {
        UseCases.EndedCommitting(prepared.session, s, true, UseCases.ReadFailed);
      }
    }
    if Faultless(s) {
      AnsweredBegin(s);
      AnsweredCommit(Prepared(begun.0, c, h).session);
    }
  }

  /** What a first start has secured, a second one finds in order, and leaves alone. */
  lemma {:induction false} StartTwice(s: Session, c: Configuration, again: Session, c': Configuration, h: Hasher)
    requires Fit(s) && Trusted(h) && Checked(s, c, h).1.None?
    requires Fit(again) && again.db == Close(Checked(s, c, h).0)
    ensures Checked(again, c', h).0.db == again.db
    ensures Faultless(again) ==> Checked(again, c', h).1.None?
  {
    hide Checked, Faultless, Trusted, Classify;
    AllOrNothing(s, c, h);
    SecondRun(again, c', h);
  }

  lemma AnsweredCommit(s: Session)
    requires Faultless(s)
    ensures CommitOn(s).1
  {
    hide Send, Faultless;
    AnsweredSend(s, Commit);
  }

  // ---- Exactly when a first start succeeds ----

  ghost predicate AlwaysHashes(h: Hasher) {
    forall password, n :: h.hash(password, n).Some?
  }

  predicate Migratable(row: User, migrates: bool, h: Hasher) {
    match Classify(h, row.password)
    case PasswordHash => true
    case LegacyPlaintext => migrates
    case InvalidPasswordHash => false
  }

  predicate AllMigratable(rows: seq<User>, i: nat, migrates: bool, h: Hasher) {
    forall j :: i <= j < |rows| ==> Migratable(rows[j], migrates, h)
  }

  /** Row i is the first one that must not be migrated. */
  predicate FirstRefused(rows: seq<User>, k: nat, i: int, migrates: bool, h: Hasher) {
    k <= i < |rows| && !Migratable(rows[i], migrates, h) && forall j :: k <= j < i ==> Migratable(rows[j], migrates, h)
  }

  function ProblemOf(row: User, h: Hasher): Problem {
    if Classify(h, row.password).InvalidPasswordHash? then InvalidHash else PlaintextPasswordsPresent
  }

  lemma RowAnswer(s: Session, db: Database, i: nat, hashes: nat, migrates: bool, h: Hasher)
    requires Migrating(s, db, i, h) && i < |db.users| && DistinctIds(db.users)
    requires Trusted(h) && AlwaysHashes(h) && Faultless(s)
    ensures
      var p := SweptRow(s, db.users[i], hashes, migrates, h);
      Faultless(p.session) &&
      p.failure == if Migratable(db.users[i], migrates, h) then None else Some(ProblemOf(db.users[i], h))
  {
    hide Send, Faultless, UseCases.Inside, PasswordsChanged, Trusted;
    var row, users := db.users[i], View(s).users;
    if Classify(h, row.password).LegacyPlaintext? && migrates {
      var hash := h.hash(row.password, hashes).value;
      HashIsTrusted(h, row.password, hashes);
      AnsweredSend(s, SetPassword(row.id, hash));
      assert DistinctIds(users) by {
        assert forall j :: 0 <= j < |users| ==> SamePerson(db.users[j], users[j]);
      }
      ChangedOnce(users, i, hash);
    }
  }

  lemma {:induction false} SweptAnswer(s: Session, db: Database, i: nat, hashes: nat, migrates: bool, h: Hasher)
    requires Migrating(s, db, i, h) && DistinctIds(db.users)
    requires Trusted(h) && AlwaysHashes(h) && Faultless(s)
    ensures
      var p := Swept(s, db.users[i..], hashes, migrates, h);
      Faultless(p.session) && (p.failure.None? <==> AllMigratable(db.users, i, migrates, h)) &&
      forall j :: FirstRefused(db.users, i, j, migrates, h) ==> p.failure == Some(ProblemOf(db.users[j], h))
    decreases |db.users| - i
  {
    hide SweptRow, Migrating, Trusted, AlwaysHashes, Faultless, Migratable, ProblemOf;
    Bounded(s, db, i, h);
    if i < |db.users| {
      var one := SweptRow(s, db.users[i], hashes, migrates, h);
      RowKeeps(s, db, i, hashes, migrates, h);
      RowAnswer(s, db, i, hashes, migrates, h);
      assert db.users[i..][0] == db.users[i] && db.users[i..][1..] == db.users[i + 1..];
      if one.failure.None? {
        SweptAnswer(one.session, db, i + 1, one.hashes, migrates, h);
        assert forall j :: FirstRefused(db.users, i, j, migrates, h) ==> FirstRefused(db.users, i + 1, j, migrates, h);
      }
    }
  }

  /** What stands in the way of the configured administrator. */
  function CredentialProblem(c: Configuration): Option<Problem> {
    if c.username.None? || c.password.None? then Some(InitialAdministratorRequired)
    else if Credentials(c) then None
    else Some(InvalidInitialAdministrator)
  }

  lemma AdministeredAnswer(s: Session, db: Database, hashes: nat, c: Configuration, h: Hasher)
    requires Migrating(s, db, |db.users|, h) && AlwaysHashes(h) && Faultless(s)
    ensures
      var p := Administered(s, hashes, c, h);
      Faultless(p.session) &&
      p.failure == if HasAdministrator(db.users) then None else CredentialProblem(c)
  {
    hide Send, Faultless, UseCases.Inside, Fields.Normalized, Classify, Administrators, HasAdministrator, SamePeople;
    var users := View(s).users;
    var counted := Send(s, CountAdministrators).0;
    AnsweredSend(s, CountAdministrators);
    UseCases.Sent(s, db, CountAdministrators);
    AdministratorsFound(users);
    SamePeopleAdministrators(db.users, users, h);
    if Credentials(c) {
      var hash := h.hash(c.password.value, hashes).value;
      AnsweredSend(counted, AddAdministrator(Fields.Normalized(c.username.value), hash));
    }
  }

  /** A database that answers, a hash function that works, and no open transaction. */
  ghost predicate Unhindered(s: Session, h: Hasher) {
    Fit(s) && DistinctIds(s.db.users) && Trusted(h) && AlwaysHashes(h) && Faultless(s)
  }

  lemma ChecksAnswer(s: Session, c: Configuration, h: Hasher)
    requires Unhindered(s, h)
    ensures
      var problem, rows, migrates := Checked(s, c, h).1, s.db.users, c.migratePlaintextPasswords;
      (problem.None? ==> AllMigratable(rows, 0, migrates, h)) &&
      (AllMigratable(rows, 0, migrates, h) ==> problem == if HasAdministrator(rows) then None else CredentialProblem(c))
    ensures
      var rows, migrates := s.db.users, c.migratePlaintextPasswords;
      forall i :: FirstRefused(rows, 0, i, migrates, h) ==> Checked(s, c, h).1 == Some(ProblemOf(rows[i], h))
  {
    hide Send, BeginOn, CommitOn, RollbackOn, Faultless, Swept, Administered, AllMigratable, Classify, Trusted,
      AlwaysHashes, HasAdministrator, Credentials, UseCases.Inside, Migratable, FirstRefused;
    var db, migrates := s.db, c.migratePlaintextPasswords;
    UseCases.Begun(s);
    AnsweredBegin(s);
    var begun := BeginOn(s).0;
    UseCases.Sent(begun, db, ReadUsers);
    AnsweredSend(begun, ReadUsers);
    UseCases.AnsweredLives(begun, ReadUsers);
    var scanned := Send(begun, ReadUsers).0;
    assert db == db.(users := db.users);
    assert Migrating(scanned, db, 0, h);
    assert db.users[0..] == db.users;
    SweptKeeps(scanned, db, 0, 0, migrates, h);
    SweptAnswer(scanned, db, 0, 0, migrates, h);
    var swept := Swept(scanned, db.users, 0, migrates, h);
    if swept.failure.None? {
      AdministeredAnswer(swept.session, db, swept.hashes, c, h);
      AnsweredCommit(Administered(swept.session, swept.hashes, c, h).session);
    }
  }

  /**
   With a database that answers and a hash function that works, the checks succeed exactly when no
   stored hash is broken, plaintext passwords may be migrated if there are any, and an
   administrator exists or acceptable credentials for one are configured.
   */
  lemma {:induction false} FirstRunSucceedsExactly(s: Session, c: Configuration, h: Hasher)
    requires Unhindered(s, h)
    ensures Checked(s, c, h).1.None? <==>
      AllMigratable(s.db.users, 0, c.migratePlaintextPasswords, h) &&
      (HasAdministrator(s.db.users) || Credentials(c))
  {
    hide Checked, Unhindered, AllMigratable, HasAdministrator, Fields.Normalized;
    ChecksAnswer(s, c, h);
  }

  /** Otherwise the first row that must not be migrated decides what the problem is. */
  lemma {:induction false} FirstProblem(s: Session, c: Configuration, h: Hasher, i: int)
    requires Unhindered(s, h) && FirstRefused(s.db.users, 0, i, c.migratePlaintextPasswords, h)
    ensures
      var broken := Classify(h, s.db.users[i].password).InvalidPasswordHash?;
      Checked(s, c, h).1 == Some(if broken then InvalidHash else PlaintextPasswordsPresent)
  {
    hide Checked, Unhindered, AllMigratable, HasAdministrator, FirstRefused, Classify;
    ChecksAnswer(s, c, h);
  }

  /** If there is none, the configured credentials do. */
  lemma {:induction false} CredentialsDecide(s: Session, c: Configuration, h: Hasher)
    requires Unhindered(s, h) && AllMigratable(s.db.users, 0, c.migratePlaintextPasswords, h)
    ensures
      Checked(s, c, h).1 ==
        if HasAdministrator(s.db.users) then None
        else if c.username.None? || c.password.None? then Some(InitialAdministratorRequired)
        else if 1 <= |Fields.Normalized(c.username.value)| <= 64 && 12 <= |c.password.value| <= 128 then None
        else Some(InvalidInitialAdministrator)
  {
    hide Checked, Unhindered, AllMigratable, HasAdministrator, Fields.Normalized;
    ChecksAnswer(s, c, h);
  }
}
