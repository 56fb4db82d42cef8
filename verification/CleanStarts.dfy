/**
 Starting the server where nothing fails by chance (composition_root.cpp:34-57 over
 production_platform.cpp:66-132): from the rows and the configuration alone, exactly when the
 listener comes up, and what the root holds on to.
 */
module CleanStarts {
  import opened Wrappers
  import opened Sql
  import opened Traces
  import opened Migration
  import opened MigrationSteps
  import opened MigrationRecovery
  import opened MigrationConvergence
  import opened MigrationLocks
  import opened MigrationCrossCheck
  import MigrationReports
  import opened CompositionRoots
  import LegacyStartup
  import Passwords

  // ---- A migration run leaves users and goods alone ----

  predicate SamePeople(a: Database, b: Database) {
    a.users == b.users && a.goods == b.goods && a.nextGoods == b.nextGoods
  }

  /** The server holds the users and goods of `db`, committed and in its working copy. */
  predicate Keeps(v: Server, db: Database) {
    SamePeople(v.db, db) && (v.txn.Some? ==> SamePeople(v.txn.value, db))
  }

  lemma AbsorbKeeps(v: Server, e: Event, env: Environment, db: Database)
    requires Keeps(v, db) && IsMigration(e.stmt)
    ensures Keeps(Absorb(v, e, env), db)
  {
  }

  lemma {:induction false} AbsorbedKeeps(v: Server, log: seq<Event>, env: Environment, db: Database)
    requires Keeps(v, db) && forall k :: 0 <= k < |log| ==> IsMigration(log[k].stmt)
    ensures Keeps(Absorbed(v, log, env), db)
  {
    if log != [] {
      hide Absorb, Keeps, IsMigration;
      AbsorbedKeeps(v, log[..|log| - 1], env, db);
      AbsorbKeeps(Absorbed(v, log[..|log| - 1], env), log[|log| - 1], env, db);
    }
  }

  lemma FrameKeepsPeople(s: Session, t: Session)
    requires Frame(s, t) && s.txn.None?
    ensures SamePeople(t.db, s.db)
  {
    hide Absorbed;
    AbsorbedKeeps(Shown(s), t.log[|s.log|..], s.env, s.db);
  }

  /**
   A run of the migrations never touches users or goods; and when it succeeds on a session that meets no
   fault, what is left of the session meets none either.
   */
  lemma {:induction false} RunLeavesPeople(m: Manifest, boots: seq<BootstrapStep>, s: Session)
    requires Fit(s)
    ensures
      var (t, r) := Run(s, m, boots);
      SamePeople(t.db, s.db) && (Faultless(s) && r.succeeded ==> Faultless(t))
  {
    hide Send, RunLocked, Frame, SamePeople;
    var r := InitialReport(m);
    var acquired := Send(s, GetLock);
    LockKeepsPeople(s, GetLock);
    LockedFrame(acquired.0, r, m, boots);
    var p := RunLocked(acquired.0, r, m, boots);
    LockKeepsPeople(p.session, ReleaseLock);
    if acquired.1 {
      FrameKeepsPeople(acquired.0, p.session);
      SamePeopleTransitive(s.db, acquired.0.db, p.session.db);
      SamePeopleTransitive(s.db, p.session.db, Send(p.session, ReleaseLock).0.db);
      if Faultless(s) && acquired.0.locked {
        AnsweredSend(s, GetLock);
        MigrationReports.LockedTally(acquired.0, m, boots);
        StillFaultlessLater(acquired.0, p.session);
      }
    }
  }

  lemma StillFaultlessLater(s: Session, t: Session)
    requires Frame(s, t) && Faultless(s)
    ensures t.poisoned || Faultless(Send(t, ReleaseLock).0)
  {
    if !t.poisoned {
      AnsweredSend(t, ReleaseLock);
    }
  }

  lemma SamePeopleTransitive(a: Database, b: Database, c: Database)
    ensures SamePeople(b, a) && SamePeople(c, b) ==> SamePeople(c, a)
  {
  }

  lemma LockKeepsPeople(s: Session, stmt: Statement)
    requires IsLockStatement(stmt)
    ensures var r := Send(s, stmt); SamePeople(r.0.db, s.db) && r.0.txn == s.txn && (r.1 ==> !s.poisoned)
  {
  }

  // ---- The stages one by one ----

  /** The stores that the three stages on the database leave, one after another. */
  function Chain(s: Store, w: Surroundings): (Store, Store, Store) {
    var probed := Probed(s, w).0;
    var migrated := Migrated(probed, w).0;
    (probed, migrated, Secured(migrated, w).0)
  }

  lemma LastThree(p: Platform, w: Surroundings)
    ensures
      var r := StagesFrom(p, w, 4);
      (r.1 <==> w.application && w.api && w.listener) && r.0.store == p.store
  {
    hide StagesFrom, Probed, Migrated, Secured;
    NextStage(p, w, 4);
    var p5 := Platform(p.store, p.calls + [Staged(Application, w.application)]);
    NextStage(p5, w, 5);
    var p6 := Platform(p.store, p5.calls + [Staged(Api, w.api)]);
    NextStage(p6, w, 6);
    LastStages(Platform(p.store, p6.calls + [Staged(HttpListener, w.listener)]), w);
  }

  lemma StagesPass(p: Platform, w: Surroundings)
    ensures
      var r := StagesFrom(p, w, 0);
      var stores := Chain(p.store, w);
      (r.1 <==>
        w.runtime && Probed(p.store, w).1 && Migrated(stores.0, w).1 && Secured(stores.1, w).1 &&
        w.application && w.api && w.listener) &&
      (r.1 ==> r.0.store == stores.2)
  {
    hide StagesFrom, Probed, Migrated, Secured, StageOutcome;
    var s := p.store;
    FirstStage(p, w);
    var p1 := Platform(s, p.calls + [Staged(MySqlRuntime, w.runtime)]);
    Outcomes(s, w);
    NextStage(p1, w, 1);
    var probed := Probed(s, w);
    var p2 := Platform(probed.0, p1.calls + [Staged(DatabasePool, probed.1)]);
    Outcomes(probed.0, w);
    NextStage(p2, w, 2);
    var migrated := Migrated(probed.0, w);
    var p3 := Platform(migrated.0, p2.calls + [Staged(Migrations, migrated.1)]);
    Outcomes(migrated.0, w);
    NextStage(p3, w, 3);
    var secured := Secured(migrated.0, w);
    LastThree(Platform(secured.0, p3.calls + [Staged(StartupChecks, secured.1)]), w);
  }

  lemma FirstStage(p: Platform, w: Surroundings)
    ensures
      var next := Platform(p.store, p.calls + [Staged(MySqlRuntime, w.runtime)]);
      StagesFrom(p, w, 0) == if w.runtime then StagesFrom(next, w, 1) else (next, false)
  {
    NextStage(p, w, 0);
  }

  /**
   The one connection that is probed meets no fault and finds the lock free and every target state of
   a check step; discovery has let the definitions pass, and hashing works.
   */
  ghost predicate Untroubled(db: Database, w: Surroundings) {
    LegacyStartup.DistinctIds(db.users) && Passwords.Trusted(w.hasher) && LegacyStartup.AlwaysHashes(w.hasher) &&
    (w.definitions.Some? ==> Distinct(w.definitions.value)) &&
    (w.probing.Some? ==>
      Faultless(Open(db, w.probing.value.fates, w.probing.value.env)) && !w.probing.value.env.lockTaken &&
      (w.definitions.Some? ==> ChecksHold(w.definitions.value, w.probing.value.env)))
  }

  function Untouched(db: Database): Root {
    Root(Platform(Store(db, None), []), false, false, false)
  }

  /** The metadata tables and the recorded rows let the migrations pass. */
  ghost predicate Migratable(db: Database, w: Surroundings) {
    w.probing.Some? && w.definitions.Some? && w.bootstraps.Some? &&
    Bootable(w.bootstraps.value, w.probing.value.env) && AllPass(w.definitions.value, 0, db)
  }

  /** The stored passwords and the configuration let the startup checks pass. */
  predicate Securable(db: Database, w: Surroundings) {
    LegacyStartup.AllMigratable(db.users, 0, w.startup.migratePlaintextPasswords, w.hasher) &&
    (LegacyStartup.HasAdministrator(db.users) || LegacyStartup.Credentials(w.startup))
  }

  lemma MigrationStage(db: Database, w: Surroundings)
    requires Untroubled(db, w) && w.probing.Some?
    ensures
      var s := GivenBack(Open(db, w.probing.value.fates, w.probing.value.env));
      var r := Migrated(s, w);
      (r.1 <==> Migratable(db, w)) &&
      (r.1 ==>
        r.0.idle.Some? && Fit(r.0.idle.value) && Faultless(r.0.idle.value) && r.0.idle.value.db == r.0.db &&
        SamePeople(r.0.db, db))
  {
    hide Run, Bootable, AllPass, Distinct, ChecksHold, Faultless, Exact, RowsExact, Foreign, SamePeople;
    var session := Open(db, w.probing.value.fates, w.probing.value.env);
    if w.definitions.Some? && w.bootstraps.Some? {
      CrossCheckExact(w.definitions.value, w.bootstraps.value, session);
      SuccessIsExact(w.definitions.value, w.bootstraps.value, session);
      RunLeavesPeople(w.definitions.value, w.bootstraps.value, session);
    }
  }

  lemma CheckStage(s: Store, db: Database, w: Surroundings)
    requires Untroubled(db, w) && SamePeople(s.db, db) && s.idle.Some? && s.idle.value.db == s.db
    requires Fit(s.idle.value) && Faultless(s.idle.value)
    ensures Secured(s, w).1 <==> Securable(db, w)
    ensures Secured(s, w).1 ==> Secured(s, w).0.idle.Some? && Fit(Secured(s, w).0.idle.value)
  {
    hide LegacyStartup.Checked, Faultless, Passwords.Trusted, LegacyStartup.AlwaysHashes, LegacyStartup.AllMigratable,
      LegacyStartup.HasAdministrator, LegacyStartup.Credentials, LegacyStartup.Upgraded;
    LegacyStartup.FirstRunSucceedsExactly(s.idle.value, w.startup, w.hasher);
    LegacyStartup.AllOrNothing(s.idle.value, w.startup, w.hasher);
  }

  /**
   The whole start, exactly: where nothing fails by chance, a fresh root comes up if and only if the
   pool can open its one connection, the bootstrap files and the recorded rows of every version
   pass, the stored passwords may be migrated, there is an administrator or acceptable credentials
   for one, and the stages on either side succeed. The probed connection serves every stage, so that the
   factory need not give another, and it is idle and fit when the listener is up.
   */
  lemma {:induction false} StartsExactly(db: Database, w: Surroundings)
    requires Untroubled(db, w)
    ensures
      var r := Started(Untouched(db), true, w);
      (r.1 <==>
        w.runtime && w.poolSize > 0 && w.probing.Some? && Migratable(db, w) && Securable(db, w) &&
        w.application && w.api && w.listener) &&
      r.0.started == r.1 && r.0.stopped == !r.1 &&
      if r.1 then r.0.platform.store.idle.Some? && Fit(r.0.platform.store.idle.value)
      else r.0.platform.store.idle.None?
    ensures Started(Untouched(db), false, w) == (Untouched(db), false)
  {
    hide StagesFrom, Migrated, Secured, Untroubled, Migratable, Securable, SamePeople, Faultless;
    var p := Platform(Store(db, None), []);
    StagesPass(p, w);
    if w.poolSize > 0 && w.probing.Some? {
      MigrationStage(db, w);
      var probed := GivenBack(Open(db, w.probing.value.fates, w.probing.value.env));
      if Migrated(probed, w).1 {
        CheckStage(Migrated(probed, w).0, db, w);
      }
    }
  }

  // ---- What a root holds on to ----

  /** A stopped root has no idle connection left. */
  predicate Closed(r: Root) {
    (r.stopped || !r.touched) ==> r.platform.store.idle.None?
  }

  lemma StepCloses(r: Root, a: CompositionRoots.Action, w: Surroundings)
    requires Closed(r) && Lawful(r)
    ensures Closed(CompositionRoots.Step(r, a, w))
  {
    hide StagesFrom, InOrder;
  }

  /** Over any life of a root: once it has stopped, and before it has begun, no connection is kept open. */
  lemma {:induction false} EveryLifeCloses(r: Root, actions: seq<CompositionRoots.Action>, w: Surroundings)
    requires Closed(r) && Lawful(r)
    ensures Closed(Life(r, actions, w))
    decreases |actions|
  {
    if actions != [] {
      hide Closed, Lawful, CompositionRoots.Step;
      StepCloses(r, actions[0], w);
      StepLawful(r, actions[0], w);
      EveryLifeCloses(CompositionRoots.Step(r, actions[0], w), actions[1..], w);
    }
  }
}
