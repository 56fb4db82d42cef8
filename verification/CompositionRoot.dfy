/**
 The staged startup and its single stop (composition_root.cpp:34-72), on a platform whose pool,
 migration and startup-check stages are the modelled ones (production_platform.cpp:66-132).
 */
module CompositionRoots {
  import opened Wrappers
  import opened Sql
  import opened ConnectionPools
  import opened Migration
  import opened MigrationRecovery
  import opened MigrationCrossCheck
  import MigrationRunners
  import LegacyStartup
  import Passwords

  datatype Stage = MySqlRuntime | DatabasePool | Migrations | StartupChecks | Application | Api | HttpListener

  const ORDER: seq<Stage> :=
    [MySqlRuntime, DatabasePool, Migrations, StartupChecks, Application, Api, HttpListener]

  /** What the platform was asked to do, and whether a stage succeeded. */
  datatype Call = Staged(stage: Stage, ok: bool) | Stopped

  /** A connection that the factory may give: the fates of its statements and its surroundings. */
  datatype Connection = Connection(fates: seq<Fate>, env: Environment)

  /** Everything outside the program that decides how the stages end. */
  datatype Surroundings = Surroundings(
    runtime: bool,
    poolSize: nat,
    probing: Option<Connection>,
    definitions: Option<Manifest>,
    bootstraps: Option<seq<BootstrapStep>>,
    migrating: Option<Connection>,
    checking: Option<Connection>,
    startup: LegacyStartup.Configuration,
    hasher: Passwords.Hasher,
    application: bool,
    api: bool,
    listener: bool)

  /** The committed rows and the session of the idle connection, if there is one. */
  datatype Store = Store(db: Database, idle: Option<Session>)

  function OpenedBy(db: Database, c: Option<Connection>): Option<Session> {
    if c.Some? then Some(Open(db, c.value.fates, c.value.env)) else None
  }

  /** The session that a stage is given: that of the idle connection, or of a new one. */
  function LeasedFrom(s: Store, created: Option<Connection>): Option<Session> {
    if s.idle.Some? then s.idle else OpenedBy(s.db, created)
  }

  function GivenBack(session: Session): Store {
    Store(Close(session), if session.poisoned then None else Some(session))
  }

  function Probed(s: Store, w: Surroundings): (Store, bool) {
    var session := OpenedBy(s.db, w.probing);
    if w.poolSize == 0 || session.None? then (s.(idle := None), false) else (GivenBack(session.value), true)
  }

  function Migrated(s: Store, w: Surroundings): (Store, bool) {
    if w.definitions.None? || w.bootstraps.None? || LeasedFrom(s, w.migrating).None? then (s, false)
    else
      var run := Run(LeasedFrom(s, w.migrating).value, w.definitions.value, w.bootstraps.value);
      (GivenBack(run.0), run.1.succeeded)
  }

  function Secured(s: Store, w: Surroundings): (Store, bool) {
    if LeasedFrom(s, w.checking).None? then (s, false)
    else
      var checked := LegacyStartup.Checked(LeasedFrom(s, w.checking).value, w.startup, w.hasher);
      (GivenBack(checked.0), checked.1.None?)
  }

  /** How a stage ends, and what it leaves. */
  function StageOutcome(stage: Stage, s: Store, w: Surroundings): (Store, bool) {
    match stage
    case MySqlRuntime => (s, w.runtime)
    case DatabasePool => Probed(s, w)
    case Migrations => Migrated(s, w)
    case StartupChecks => Secured(s, w)
    case Application => (s, w.application)
    case Api => (s, w.api)
    case HttpListener => (s, w.listener)
  }

  datatype Platform = Platform(store: Store, calls: seq<Call>)

  /** The stages from number k on, up to the first that fails. */
  function StagesFrom(p: Platform, w: Surroundings, k: nat): (r: (Platform, bool))
    requires k <= |ORDER|
    decreases |ORDER| - k
  {
    if k == |ORDER| then (p, true)
    else
      var outcome := StageOutcome(ORDER[k], p.store, w);
      var next := Platform(outcome.0, p.calls + [Staged(ORDER[k], outcome.1)]);
      if outcome.1 then StagesFrom(next, w, k + 1) else (next, false)
  }

  lemma NextStage(p: Platform, w: Surroundings, k: nat)
    requires k < |ORDER|
    ensures
      var outcome := StageOutcome(ORDER[k], p.store, w);
      var next := Platform(outcome.0, p.calls + [Staged(ORDER[k], outcome.1)]);
      StagesFrom(p, w, k) == if outcome.1 then StagesFrom(next, w, k + 1) else (next, false)
  {
  }

  lemma Outcomes(s: Store, w: Surroundings)
    ensures StageOutcome(DatabasePool, s, w) == Probed(s, w)
    ensures StageOutcome(Migrations, s, w) == Migrated(s, w)
    ensures StageOutcome(StartupChecks, s, w) == Secured(s, w)
  {
  }

  lemma LastStages(p: Platform, w: Surroundings)
    ensures StagesFrom(p, w, |ORDER|) == (p, true)
  {
  }

  datatype Root = Root(platform: Platform, touched: bool, started: bool, stopped: bool)

  /** Stopping the platform closes its pool. */
  function Halted(r: Root): Root {
    if r.stopped || !r.touched then r
    else
      Root(Platform(r.platform.store.(idle := None), r.platform.calls + [Stopped]), r.touched, false, true)
  }

  /** `loads` says whether the configuration could be read. */
  function Started(r: Root, loads: bool, w: Surroundings): (Root, bool) {
    if r.started || r.stopped || r.touched || !loads then (r, false)
    else
      var staged := StagesFrom(r.platform, w, 0);
      var touched := Root(staged.0, true, false, false);
      if staged.1 then (touched.(started := true), true) else (Halted(touched), false)
  }

  /** A pool that no other caller uses gives out its idle connection, or room for a new one. */
  lemma OnlyConnection<C>(p: Pool<C>)
    requires p.capacity > 0 && p.total == |p.available| <= 1
    ensures Ready(p)
    ensures Taken(p) ==
      (p.(available := [], total := 1), if p.available == [] then None else Some(p.available[0]))
  {
  }

  lemma BackAlone<C>(p: Pool<C>, c: C, reusable: bool)
    requires p.capacity > 0 && p.total == |p.available| <= 1
    ensures Ready(p)
    ensures Returned(Taken(p).0, c, reusable) ==
      p.(available := if reusable then [c] else [], total := if reusable then 1 else 0)
  {
  }

  class CompositionRoot {
    const surroundings: Surroundings
    var db: Database
    var pool: ConnectionPool?
    var calls: seq<Call>
    var platformTouched: bool
    var started: bool
    var stopped: bool

    /** The pool and the connection that it keeps. */
    ghost function Reach(): set<object>
      reads this, pool
    {
      if pool == null then {} else if pool.available == [] then {pool} else {pool, pool.available[0]}
    }

    /** The stages run one after another, so at most one connection is ever idle. */
    ghost predicate Valid()
      reads this, pool
    {
      (pool != null ==> pool.capacity > 0 && pool.total == |pool.available| <= 1) &&
      (!platformTouched ==> pool == null)
    }

    ghost function Stored(): Store
      reads this, Reach()
    {
      Store(db, if pool == null || pool.available == [] then None else Some(pool.available[0].session))
    }

    ghost function State(): Root
      reads this, Reach()
    {
      Root(Platform(Stored(), calls), platformTouched, started, stopped)
    }

    constructor (db: Database, surroundings: Surroundings)
      ensures Valid() && State() == Root(Platform(Store(db, None), []), false, false, false)
      ensures this.surroundings == surroundings && pool == null
    {
      this.db, this.surroundings := db, surroundings;
      pool := null;
      calls := [];
      platformTouched, started, stopped := false, false, false;
    }

    /** What the factory would give at this point. */
    method Connect(c: Option<Connection>) returns (created: Option<SqlExecutor>)
      ensures created.Some? <==> c.Some?
      ensures created.Some? ==> fresh(created.value) && Some(created.value.session) == OpenedBy(db, c)
    {
      if c.None? {
        return None;
      }
      var executor := new SqlExecutor(Open(db, c.value.fates, c.value.env));
      return Some(executor);
    }

    method CreateDatabasePool() returns (ok: bool)
      requires Valid() && pool == null && platformTouched
      modifies this`pool, this`calls
      ensures Valid() && (Stored(), ok) == Probed(old(Stored()), surroundings)
      ensures ok ==> pool != null && fresh(Reach())
      ensures calls == old(calls) + [Staged(DatabasePool, ok)]
    {
      ok := false;
      if surroundings.poolSize > 0 {
        pool := new ConnectionPool(surroundings.poolSize);
        var created := Connect(surroundings.probing);
        var probe := pool.Acquire(created);
        if probe.Some? {
          ok := true;
          probe.value.Release();
        }
      }
      calls := calls + [Staged(DatabasePool, ok)];
    }

    method RunOn(executor: SqlExecutor, definitions: Manifest, bootstraps: seq<BootstrapStep>) returns (ok: bool)
      modifies executor
      ensures executor.session == Run(old(executor.session), definitions, bootstraps).0
      ensures ok == Run(old(executor.session), definitions, bootstraps).1.succeeded
    {
      hide Run;
      var runner := new MigrationRunners.MigrationRunner(executor);
      var report := runner.Run(definitions, bootstraps);
      ok := report.succeeded;
    }

    method RunMigrations() returns (ok: bool)
      requires Valid() && pool != null
      modifies this`db, this`calls, Reach()
      ensures Valid() && (Stored(), ok) == Migrated(old(Stored()), surroundings)
      ensures fresh(Reach() - old(Reach()))
      ensures calls == old(calls) + [Staged(Migrations, ok)]
    {
      hide Run, Taken, Returned, Ready;
      ok := false;
      var w := surroundings;
      OnlyConnection(pool.State());
      if w.definitions.Some? && w.bootstraps.Some? {
        var created := Connect(w.migrating);
        var lease := pool.Acquire(created);
        if lease.Some? {
          var executor := lease.value.executor;
          ok := RunOn(executor, w.definitions.value, w.bootstraps.value);
          db := Close(executor.session);
          BackAlone(old(pool.State()), executor, !executor.session.poisoned);
          lease.value.Release();
        }
      }
      calls := calls + [Staged(Migrations, ok)];
    }

    method RunStartupChecks() returns (ok: bool)
      requires Valid() && pool != null
      modifies this`db, this`calls, Reach()
      ensures Valid() && (Stored(), ok) == Secured(old(Stored()), surroundings)
      ensures fresh(Reach() - old(Reach()))
      ensures calls == old(calls) + [Staged(StartupChecks, ok)]
    {
      hide LegacyStartup.Checked, Taken, Returned, Ready;
      var w := surroundings;
      var created := Connect(w.checking);
      var executor := if |pool.available| > 0 then Some(pool.available[0]) else created;
      OnlyConnection(pool.State());
      assert pool.Chosen(created) == executor;
      var failure := LegacyStartup.RunLegacyStartupChecks(pool, created, w.startup, w.hasher);
      ok := failure.None?;
      if executor.Some? {
        BackAlone(old(pool.State()), executor.value, !executor.value.session.poisoned);
        db := Close(executor.value.session);
      }
      calls := calls + [Staged(StartupChecks, ok)];
    }

    /** One of the stages that touch neither the pool nor the database. */
    method Attempt(stage: Stage, ok: bool)
      modifies this`calls
      ensures calls == old(calls) + [Staged(stage, ok)]
    {
      calls := calls + [Staged(stage, ok)];
    }

    method Stages() returns (ok: bool)
      requires Valid() && pool == null && platformTouched
      modifies this`db, this`pool, this`calls
      ensures Valid()
      ensures (Platform(Stored(), calls), ok) == StagesFrom(old(Platform(Stored(), calls)), surroundings, 0)
    {
      hide StagesFrom;
      NextStage(Platform(Stored(), calls), surroundings, 0);
      ok := surroundings.runtime;
      Attempt(MySqlRuntime, ok);
      if !ok { return; }
      ok := PrepareDatabase();
      if !ok { return; }
      ok := Assemble();
    }

    /** The pool, the migrations and the startup checks. */
    method PrepareDatabase() returns (ok: bool)
      requires Valid() && pool == null && platformTouched
      modifies this`db, this`pool, this`calls
      ensures Valid()
      ensures StagesFrom(old(Platform(Stored(), calls)), surroundings, 1) ==
        if ok then StagesFrom(Platform(Stored(), calls), surroundings, 4) else (Platform(Stored(), calls), false)
    {
      hide Probed, Migrated, Secured, StagesFrom, StageOutcome;
      Outcomes(Stored(), surroundings);
      NextStage(Platform(Stored(), calls), surroundings, 1);
      ok := CreateDatabasePool();
      if !ok { return; }
      Outcomes(Stored(), surroundings);
      NextStage(Platform(Stored(), calls), surroundings, 2);
      ok := RunMigrations();
      if !ok { return; }
      Outcomes(Stored(), surroundings);
      NextStage(Platform(Stored(), calls), surroundings, 3);
      ok := RunStartupChecks();
    }

    /** The application, the API and the listener. */
    method Assemble() returns (ok: bool)
      requires Valid()
      modifies this`calls
      ensures (Platform(Stored(), calls), ok) == StagesFrom(old(Platform(Stored(), calls)), surroundings, 4)
    {
      hide StagesFrom;
      NextStage(Platform(Stored(), calls), surroundings, 4);
      ok := surroundings.application;
      Attempt(Application, ok);
      if !ok { return; }
      NextStage(Platform(Stored(), calls), surroundings, 5);
      ok := surroundings.api;
      Attempt(Api, ok);
      if !ok { return; }
      NextStage(Platform(Stored(), calls), surroundings, 6);
      ok := surroundings.listener;
      Attempt(HttpListener, ok);
      LastStages(Platform(Stored(), calls), surroundings);
    }

    method Start(loads: bool) returns (ok: bool)
      requires Valid()
      modifies this
      ensures Valid() && (State(), ok) == Started(old(State()), loads, surroundings)
    {
      hide StagesFrom;
      if started || stopped || platformTouched {
        return false;
      }
      if !loads {
        return false;
      }
      platformTouched := true;
      var result := Stages();
      if !result {
        Stop();
        return false;
      }
      started := true;
      return true;
    }

    /** Starts, waits until shutdown is asked for, and stops. */
    method Serve(loads: bool) returns (ok: bool)
      requires Valid()
      modifies this
      ensures Valid()
      ensures
        var begun := Started(old(State()), loads, surroundings);
        ok == begun.1 && State() == if begun.1 then Halted(begun.0) else begun.0
    {
      ok := Start(loads);
      if ok {
        Stop();
      }
    }

    method Stop()
      requires Valid()
      modifies this
      ensures Valid() && State() == Halted(old(State()))
    {
      if stopped || !platformTouched {
        return;
      }
      stopped := true;
      started := false;
      pool := null;
      calls := calls + [Stopped];
    }

    /** The destructor. */
    method Destroy()
      requires Valid()
      modifies this
      ensures Valid() && State() == Halted(old(State()))
    {
      Stop();
    }
  }

  // ---- Any sequence of calls ----

  datatype Action = Start(loads: bool) | Serve(loads: bool) | Stop | Destroy

  function Step(r: Root, a: Action, w: Surroundings): Root {
    match a
    case Start(loads) => Started(r, loads, w).0
    case Serve(loads) =>
      var begun := Started(r, loads, w);
      if begun.1 then Halted(begun.0) else begun.0
    case Stop => Halted(r)
    case Destroy => Halted(r)
  }

  function Life(r: Root, actions: seq<Action>, w: Surroundings): Root
    decreases |actions|
  {
    if actions == [] then r else Life(Step(r, actions[0], w), actions[1..], w)
  }

  /** The first n stages in order, of which all but the last succeeded. */
  predicate InOrder(calls: seq<Call>, n: nat) {
    |calls| == n <= |ORDER| &&
    forall i :: 0 <= i < n ==>
      calls[i].Staged? && calls[i].stage == ORDER[i] && (i < n - 1 ==> calls[i].ok)
  }

  /** The calls that the platform has seen fit the flags of the root. */
  predicate Lawful(r: Root) {
    var calls := r.platform.calls;
    if !r.touched then calls == [] && !r.started && !r.stopped
    else if !r.stopped then
      r.started && InOrder(calls, |ORDER|) && calls[|ORDER| - 1].Staged? && calls[|ORDER| - 1].ok
    else
      !r.started && 2 <= |calls| && calls[|calls| - 1] == Stopped &&
      InOrder(calls[..|calls| - 1], |calls| - 1)
  }

  lemma {:induction false} StagesInOrder(p: Platform, w: Surroundings, k: nat)
    requires k <= |ORDER| && InOrder(p.calls, k) && forall i :: 0 <= i < k ==> p.calls[i].Staged? && p.calls[i].ok
    ensures
      var r := StagesFrom(p, w, k);
      InOrder(r.0.calls, |r.0.calls|) && |r.0.calls| >= (if k < |ORDER| then k + 1 else k) &&
      (r.1 <==> |r.0.calls| == |ORDER| && r.0.calls[|ORDER| - 1].ok)
    decreases |ORDER| - k
  {
    hide StageOutcome;
    if k < |ORDER| {
      var outcome := StageOutcome(ORDER[k], p.store, w);
      var next := Platform(outcome.0, p.calls + [Staged(ORDER[k], outcome.1)]);
      assert InOrder(next.calls, k + 1);
      if outcome.1 {
        StagesInOrder(next, w, k + 1);
      }
    }
  }

  lemma HaltedLawful(r: Root)
    requires Lawful(r)
    ensures Lawful(Halted(r))
  {
    var calls := r.platform.calls;
    assert (calls + [Stopped])[..|calls|] == calls;
  }

  lemma StartedLawful(r: Root, loads: bool, w: Surroundings)
    requires Lawful(r)
    ensures Lawful(Started(r, loads, w).0)
  {
    hide StagesFrom;
    if !r.touched {
      StagesInOrder(r.platform, w, 0);
      var calls := StagesFrom(r.platform, w, 0).0.calls;
      assert (calls + [Stopped])[..|calls|] == calls;
    }
  }

  lemma StepLawful(r: Root, a: Action, w: Surroundings)
    requires Lawful(r)
    ensures Lawful(Step(r, a, w))
  {
    hide Lawful, Started, Halted;
    match a
    case Start(loads) => StartedLawful(r, loads, w);
    case Serve(loads) =>
      StartedLawful(r, loads, w);
      HaltedLawful(Started(r, loads, w).0);
    case Stop => HaltedLawful(r);
    case Destroy => HaltedLawful(r);
  }

  /**
   Over any life of a root the platform sees a prefix of the seven stages, of which all but the
   last succeeded, and then exactly one stop, unless the root is running or was never started.
   */
  lemma {:induction false} EveryLifeLawful(r: Root, actions: seq<Action>, w: Surroundings)
    requires Lawful(r)
    ensures Lawful(Life(r, actions, w))
    decreases |actions|
  {
    hide Lawful, Step;
    if actions != [] {
      StepLawful(r, actions[0], w);
      EveryLifeLawful(Step(r, actions[0], w), actions[1..], w);
    }
  }

  // ---- The gate in front of the listener ----

  /** Every required step is recorded SUCCEEDED, every password is a hash, an administrator exists. */
  ghost predicate Gate(db: Database, w: Surroundings) {
    w.definitions.Some? && MigrationsDone(db, w) && LegacyStartup.Secured(db.users, w.hasher)
  }

  /** Each required step has exactly the SUCCEEDED record of the manifest. */
  ghost predicate MigrationsDone(db: Database, w: Surroundings) {
    w.definitions.Some? &&
    forall i, j :: IsRequired(w.definitions.value, i, j) ==> Exact(w.definitions.value, db, i, j)
  }

  predicate ListenerReached(calls: seq<Call>) {
    exists i :: 0 <= i < |calls| && calls[i].Staged? && calls[i].stage.HttpListener?
  }

  /** Hashes are hashes, and discovery has let the definitions pass. */
  ghost predicate Plausible(w: Surroundings) {
    Passwords.Trusted(w.hasher) && (w.definitions.Some? ==> Distinct(w.definitions.value))
  }

  /** An idle connection is fit for use, and sees the committed rows. */
  predicate Tidy(s: Store) {
    s.idle.Some? ==> Fit(s.idle.value) && s.idle.value.db == s.db
  }

  lemma LeasedFits(s: Store, created: Option<Connection>)
    requires Tidy(s) && LeasedFrom(s, created).Some?
    ensures Fit(LeasedFrom(s, created).value) && LeasedFrom(s, created).value.db == s.db
  {
  }

  /** Whatever the recorded rows were: a migration stage that passes has established its records. */
  lemma MigrationsPassed(s: Store, w: Surroundings)
    requires Plausible(w) && Tidy(s)
    ensures Tidy(Migrated(s, w).0)
    ensures Migrated(s, w).1 ==> MigrationsDone(Migrated(s, w).0.db, w)
  {
    hide Run, Distinct, Passwords.Trusted, Foreign, RowsExact;
    if w.definitions.Some? && w.bootstraps.Some? && LeasedFrom(s, w.migrating).Some? {
      LeasedFits(s, w.migrating);
      SuccessIsExact(w.definitions.value, w.bootstraps.value, LeasedFrom(s, w.migrating).value);
    }
  }

  lemma ChecksPassed(s: Store, w: Surroundings)
    requires Passwords.Trusted(w.hasher) && Tidy(s)
    ensures Tidy(Secured(s, w).0)
    ensures MigrationsDone(s.db, w) && Secured(s, w).1 ==> Gate(Secured(s, w).0.db, w)
  {
    hide LegacyStartup.Checked, Passwords.Trusted, LegacyStartup.Secured;
    if LeasedFrom(s, w.checking).Some? {
      LeasedFits(s, w.checking);
      LegacyStartup.AllOrNothing(LeasedFrom(s, w.checking).value, w.startup, w.hasher);
      var after := Secured(s, w).0.db;
      if Secured(s, w).1 {
        assert after.steps == s.db.steps;
        UpgradedSecures(s.db.users, after.users, w.startup, w.hasher);
      }
    }
  }

  lemma UpgradedSecures(before: seq<User>, after: seq<User>, c: LegacyStartup.Configuration, h: Passwords.Hasher)
    requires LegacyStartup.Upgraded(before, after, c, h)
    ensures LegacyStartup.Secured(after, h)
  {
  }

  /** What holds before stage k, if every stage so far has succeeded. */
  ghost predicate Before(s: Store, w: Surroundings, k: nat) {
    Plausible(w) && Tidy(s) &&
    (k == 3 ==> MigrationsDone(s.db, w)) &&
    (k >= 4 ==> Gate(s.db, w))
  }

  lemma StageKeepsGate(s: Store, w: Surroundings, k: nat)
    requires k < |ORDER| && Before(s, w, k) && StageOutcome(ORDER[k], s, w).1
    ensures Before(StageOutcome(ORDER[k], s, w).0, w, k + 1)
  {
    hide Migrated, Secured, Gate, MigrationsDone, Passwords.Trusted, Distinct;
    if k == 2 {
      MigrationsPassed(s, w);
    } else if k == 3 {
      ChecksPassed(s, w);
    }
  }

  lemma {:induction false} StagesKeepGate(p: Platform, w: Surroundings, k: nat)
    requires k <= |ORDER| && |p.calls| == k && Before(p.store, w, k)
    ensures
      var r := StagesFrom(p, w, k).0;
      |r.calls| == |ORDER| ==> Gate(r.store.db, w)
    decreases |ORDER| - k
  {
    hide StageOutcome, Gate, MigrationsDone, Plausible, Tidy;
    if k < |ORDER| {
      var outcome := StageOutcome(ORDER[k], p.store, w);
      var next := Platform(outcome.0, p.calls + [Staged(ORDER[k], outcome.1)]);
      LastStage(p.store, w);
      if outcome.1 {
        StageKeepsGate(p.store, w, k);
        StagesKeepGate(next, w, k + 1);
      }
    }
  }

  lemma LastStage(s: Store, w: Surroundings)
    ensures StageOutcome(ORDER[|ORDER| - 1], s, w).0 == s
  {
  }

  /** The number of stages that the platform was asked for. */
  function StageCount(r: Root): int {
    if r.stopped then |r.platform.calls| - 1 else |r.platform.calls|
  }

  ghost predicate Guarded(r: Root, w: Surroundings) {
    (!r.touched ==> Tidy(r.platform.store)) &&
    (r.touched && StageCount(r) == |ORDER| ==> Gate(r.platform.store.db, w))
  }

  lemma StepGuarded(r: Root, a: Action, w: Surroundings)
    requires Lawful(r) && Guarded(r, w) && Plausible(w)
    ensures Guarded(Step(r, a, w), w)
  {
    hide StagesFrom, Gate, Plausible, Tidy;
    if !r.touched {
      assert Before(r.platform.store, w, 0);
      StagesKeepGate(r.platform, w, 0);
    }
  }

  lemma {:induction false} EveryLifeGuarded(r: Root, actions: seq<Action>, w: Surroundings)
    requires Lawful(r) && Guarded(r, w) && Plausible(w)
    ensures Guarded(Life(r, actions, w), w)
    decreases |actions|
  {
    hide Lawful, Guarded, Step, Plausible;
    if actions != [] {
      StepLawful(r, actions[0], w);
      StepGuarded(r, actions[0], w);
      EveryLifeGuarded(Step(r, actions[0], w), actions[1..], w);
    }
  }

  /** In a lawful life the listener is reached exactly when all seven stages were asked for. */
  lemma ListenerIsLast(r: Root)
    requires Lawful(r)
    ensures ListenerReached(r.platform.calls) <==> r.touched && StageCount(r) == |ORDER|
  {
    var calls := r.platform.calls;
    if r.touched && StageCount(r) == |ORDER| {
      assert calls[..|ORDER|][|ORDER| - 1] == calls[|ORDER| - 1];
      assert calls[|ORDER| - 1].Staged? && calls[|ORDER| - 1].stage.HttpListener?;
    }
    if ListenerReached(calls) && r.touched {
      var i :| 0 <= i < |calls| && calls[i].Staged? && calls[i].stage.HttpListener?;
      assert i < StageCount(r);
      if r.stopped {
        assert calls[..|calls| - 1][i] == calls[i];
      }
      assert ORDER[i].HttpListener?;
    }
  }

  /**
   Over any life of a root, on any database whatever: once the platform has been asked for the
   listener, every required migration step has its SUCCEEDED record, every stored password is a
   hash and an administrator exists.
   */
  lemma {:induction false} GateBeforeListener(db: Database, w: Surroundings, actions: seq<Action>)
    requires Plausible(w)
    ensures
      var r := Life(Root(Platform(Store(db, None), []), false, false, false), actions, w);
      ListenerReached(r.platform.calls) ==> Gate(r.platform.store.db, w)
  {
    hide Gate, Plausible;
    var start := Root(Platform(Store(db, None), []), false, false, false);
    EveryLifeLawful(start, actions, w);
    EveryLifeGuarded(start, actions, w);
    ListenerIsLast(Life(start, actions, w));
  }
}
