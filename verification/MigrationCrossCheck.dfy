/**
 Runs over any metadata whatever (migration.cpp:387-461): what a run that reports success has
 established, and exactly which recorded rows a run without faults accepts.
 */
module MigrationCrossCheck {
  import opened Sql
  import opened StepChecksum
  import opened Migration
  import opened MigrationSteps
  import opened MigrationRecovery
  import opened MigrationRuns
  import opened MigrationConvergence
  import opened MigrationReports
  import opened MigrationLocks
  import opened MigrationMetadata

  /** The record is the one that a finished step leaves. */
  predicate Exact(m: Manifest, db: Database, i: int, j: int)
    requires Valid(m, i, j)
  {
    var step := m[i].steps[j];
    KeyAt(m, i, j) in db.steps &&
    db.steps[KeyAt(m, i, j)] ==
      StepRow(step.checksum, PhaseName(step.phase), ExecutionName(step.execution), SUCCEEDED)
  }

  ghost predicate ExactBefore(m: Manifest, db: Database, i: int, j: int) {
    forall i', j' :: IsRequired(m, i', j') && Earlier(i', j', i, j) ==> Exact(m, db, i', j')
  }

  /** The rows of every version but one are untouched. */
  ghost predicate Elsewhere(db: Database, db': Database, version: nat) {
    (forall key: StepKey :: key.version != version ==>
      (key in db.steps <==> key in db'.steps) && db.effects[key] == db'.effects[key]) &&
    (forall key: StepKey :: key.version != version && key in db.steps && key in db'.steps ==>
      db'.steps[key] == db.steps[key]) &&
    (forall v: nat :: v != version ==> (v in db.versions <==> v in db'.versions)) &&
    (forall v: nat :: v != version && v in db.versions && v in db'.versions ==> db'.versions[v] == db.versions[v])
  }

  lemma ElsewhereTransitive(db: Database, db': Database, db'': Database, version: nat)
    requires Elsewhere(db, db', version) && Elsewhere(db', db'', version)
    ensures Elsewhere(db, db'', version)
  {
  }

  /** What holds before step `j` of definition `i`, once the recorded rows have been checked. */
  ghost predicate Checked(m: Manifest, i: int, j: int, s: Session, rows: map<string, StepRow>) {
    Distinct(m) && 0 <= i < |m| && 0 <= j <= |m[i].steps| && Fit(s) &&
    ExactBefore(m, s.db, i, j) && Snapshot(s.db, m[i], j, rows) && Matches(rows, m[i])
  }

  /** The cross-check covers the record of every step of the manifest. */
  lemma MatchedRow(rows: map<string, StepRow>, d: Definition, j: int)
    requires Matches(rows, d) && DistinctIds(d.steps) && 0 <= j < |d.steps| && d.steps[j].id in rows
    ensures SameMetadata(rows[d.steps[j].id], d.steps[j])
  {
    var step := Current(d.steps, d.steps[j].id);
    var k :| 0 <= k < |d.steps| && d.steps[k] == step;
    assert k == j;
  }

  /** A step that needs no work: deferred, or recorded SUCCEEDED. */
  predicate Settled(rows: map<string, StepRow>, step: Step) {
    step.phase.Cleanup? || (step.id in rows && rows[step.id].status == SUCCEEDED)
  }

  /** A settled step leaves the session alone, and its record is exact. */
  lemma SettledStep(m: Manifest, i: int, j: int, s: Session, r: Report, rows: map<string, StepRow>, complete: bool)
    requires Checked(m, i, j, s, rows) && j < |m[i].steps| && Settled(rows, m[i].steps[j])
    ensures
      var p := MigrateStep(s, r, m[i], m[i].steps[j], rows, complete);
      !p.returned && p.session == s && Checked(m, i, j + 1, s, rows)
  {
    var step := m[i].steps[j];
    if !step.phase.Cleanup? {
      MatchedRow(rows, m[i], j);
      assert Exact(m, s.db, i, j);
    }
    forall i', j' | IsRequired(m, i', j') && Earlier(i', j', i, j + 1)
      ensures Exact(m, s.db, i', j')
    {
      assert Earlier(i', j', i, j) || (i' == i && j' == j);
    }
  }

  lemma UnsettledWorks(m: Manifest, i: int, j: int, s: Session, r: Report, rows: map<string, StepRow>)
    requires Checked(m, i, j, s, rows) && j < |m[i].steps| && !Settled(rows, m[i].steps[j])
    ensures Worked(s, MigrateStep(s, r, m[i], m[i].steps[j], rows, false), m[i], m[i].steps[j])
    ensures MetadataKept(s.db, m[i], m[i].steps[j]) && !Succeeded(s.db, KeyAt(m, i, j))
  {
    hide ExactBefore;
    var d, step := m[i], m[i].steps[j];
    if step.id in rows {
      MatchedRow(rows, d, j);
      RecoverOutcome(s, r, d, step);
    } else {
      ExecuteOutcome(s, r, d, step);
    }
  }

  /** Working on a step touches its own version only, and leaves an exact record unless the run ends. */
  lemma WorkedChecked(m: Manifest, i: int, j: int, s: Session, p: Progress, rows: map<string, StepRow>)
    requires Checked(m, i, j, s, rows) && j < |m[i].steps| && !Succeeded(s.db, KeyAt(m, i, j))
    requires Worked(s, p, m[i], m[i].steps[j])
    ensures Elsewhere(s.db, p.session.db, m[i].version)
    ensures !p.returned ==> Checked(m, i, j + 1, p.session, rows) && p.session.db.versions == s.db.versions
  {
    hide Matches;
    var db, db', key := s.db, p.session.db, KeyAt(m, i, j);
    if !p.returned {
      assert db'.steps == db.steps[key := RecordOf(m[i].steps[j], SUCCEEDED)];
      forall i', j' | IsRequired(m, i', j') && Earlier(i', j', i, j + 1)
        ensures Exact(m, db', i', j')
      {
        if KeyAt(m, i', j') == key {
          KeysDistinct(m, i', j', i, j);
        } else {
          assert Earlier(i', j', i, j) && Exact(m, db, i', j');
        }
      }
      SnapshotMoves(m, i, j, db, db', rows);
    }
  }

  lemma SnapshotMoves(m: Manifest, i: int, j: int, db: Database, db': Database, rows: map<string, StepRow>)
    requires Distinct(m) && Valid(m, i, j) && Snapshot(db, m[i], j, rows)
    requires KeyAt(m, i, j) in db'.steps && db'.steps == db.steps[KeyAt(m, i, j) := db'.steps[KeyAt(m, i, j)]]
    ensures Snapshot(db', m[i], j + 1, rows)
  {
    var d := m[i];
    forall j' | j + 1 <= j' < |d.steps|
      ensures d.steps[j'].id in rows <==> Key(d, d.steps[j']) in db'.steps
      ensures d.steps[j'].id in rows ==> rows[d.steps[j'].id] == db'.steps[Key(d, d.steps[j'])]
    {
      assert Key(d, d.steps[j']) != KeyAt(m, i, j);
    }
  }

  lemma StepChecked(m: Manifest, i: int, j: int, s: Session, r: Report, rows: map<string, StepRow>, complete: bool)
    requires Checked(m, i, j, s, rows) && j < |m[i].steps|
    ensures
      var p := MigrateStep(s, r, m[i], m[i].steps[j], rows, complete);
      Idle(p.session) && Elsewhere(s.db, p.session.db, m[i].version) &&
      (!p.returned ==> Checked(m, i, j + 1, p.session, rows) && p.session.db.versions == s.db.versions) &&
      (complete ==> p.session == s) && (complete ==> (p.returned <==> !Settled(rows, m[i].steps[j])))
  {
    if Settled(rows, m[i].steps[j]) {
      hide Checked, MigrateStep, Elsewhere;
      SettledStep(m, i, j, s, r, rows, complete);
      CheckedFits(m, i, j, s, rows);
    } else if !complete {
      hide Checked, MigrateStep, Elsewhere;
      UnsettledWorks(m, i, j, s, r, rows);
      WorkedChecked(m, i, j, s, MigrateStep(s, r, m[i], m[i].steps[j], rows, false), rows);
    }
  }

  lemma CheckedFits(m: Manifest, i: int, j: int, s: Session, rows: map<string, StepRow>)
    requires Checked(m, i, j, s, rows)
    ensures Fit(s) && Elsewhere(s.db, s.db, m[i].version)
  {
  }

  lemma {:induction false} StepsChecked(m: Manifest, i: int, k: nat, p: Progress,
                                        rows: map<string, StepRow>, complete: bool)
    requires Checked(m, i, k, p.session, rows) && !p.returned
    ensures
      var q := MigrateSteps(p, m[i], k, rows, complete);
      Idle(q.session) && Elsewhere(p.session.db, q.session.db, m[i].version) &&
      (!q.returned ==>
        Checked(m, i, |m[i].steps|, q.session, rows) && q.session.db.versions == p.session.db.versions) &&
      (complete ==> q.session == p.session) &&
      (complete ==> (!q.returned <==> forall j :: k <= j < |m[i].steps| ==> Settled(rows, m[i].steps[j])))
    decreases |m[i].steps| - k
  {
    CheckedFits(m, i, k, p.session, rows);
    if k < |m[i].steps| {
      hide MigrateStep, Checked, Elsewhere, Settled;
      var next := MigrateStep(p.session, p.report, m[i], m[i].steps[k], rows, complete);
      StepChecked(m, i, k, p.session, p.report, rows, complete);
      if !next.returned {
        StepsChecked(m, i, k + 1, next, rows, complete);
        ElsewhereTransitive(
          p.session.db, next.session.db, MigrateSteps(next, m[i], k + 1, rows, complete).session.db, m[i].version);
      }
    }
  }

  /** What holds between two versions. */
  ghost predicate Between(m: Manifest, i: int, s: Session) {
    Distinct(m) && 0 <= i <= |m| && Fit(s) && ExactBefore(m, s.db, i, 0)
  }

  lemma RowsTaken(m: Manifest, i: int, s: Session)
    requires Between(m, i, s) && i < |m| && Matches(RowsOf(s.db, m[i].version), m[i])
    ensures Checked(m, i, 0, s, RowsOf(s.db, m[i].version))
  {
    var d, rows := m[i], RowsOf(s.db, m[i].version);
    forall j | 0 <= j < |d.steps|
      ensures d.steps[j].id in rows <==> Key(d, d.steps[j]) in s.db.steps
      ensures d.steps[j].id in rows ==> rows[d.steps[j].id] == s.db.steps[Key(d, d.steps[j])]
    {
    }
  }

  /** A write of the version's own row leaves the step records alone. */
  lemma VersionWritten(m: Manifest, i: int, s: Session, status: Status)
    requires 0 <= i < |m| && Idle(s)
    ensures
      var r := WriteVersionStatus(s, m[i], status);
      Idle(r.0) && r.0.db.steps == s.db.steps && Elsewhere(s.db, r.0.db, m[i].version) &&
      (r.1 ==> Fit(r.0) && r.0.db.versions == s.db.versions[m[i].version := VersionRow(m[i].name, status)])
  {
    hide Send;
    SendAlone(s, WriteVersion(m[i].version, VersionRow(m[i].name, status)));
  }

  lemma SameRecords(m: Manifest, i: int, j: int, s: Session, t: Session, rows: map<string, StepRow>)
    requires Checked(m, i, j, s, rows) && Fit(t) && t.db.steps == s.db.steps
    ensures Checked(m, i, j, t, rows)
  {
    forall i', j' | IsRequired(m, i', j') && Earlier(i', j', i, j)
      ensures Exact(m, t.db, i', j')
    {
      assert Exact(m, s.db, i', j');
    }
  }

  lemma LastStepDone(m: Manifest, i: int, s: Session, t: Session, rows: map<string, StepRow>)
    requires 0 <= i < |m| && Checked(m, i, |m[i].steps|, s, rows) && Fit(t) && t.db.steps == s.db.steps
    ensures Between(m, i + 1, t)
  {
    forall i', j' | IsRequired(m, i', j') && Earlier(i', j', i + 1, 0)
      ensures Exact(m, t.db, i', j')
    {
      assert Earlier(i', j', i, |m[i].steps|) && Exact(m, s.db, i', j');
    }
  }

  predicate RowExact(m: Manifest, db: Database, k: int)
    requires 0 <= k < |m|
  {
    m[k].version in db.versions && db.versions[m[k].version] == VersionRow(m[k].name, SUCCEEDED)
  }

  lemma RowsChecked(m: Manifest, i: int, s: Session, r: Report, complete: bool)
    requires 0 <= i < |m| && Between(m, i, s) && (complete ==> RowExact(m, s.db, i))
    ensures
      var p := MigrateRows(s, r, m[i], complete);
      Idle(p.session) && Elsewhere(s.db, p.session.db, m[i].version) &&
      (!p.returned ==> Between(m, i + 1, p.session) && RowExact(m, p.session.db, i))
  {
    hide Send, MigrateSteps, RowsOf, Matches, Checked, Elsewhere, Between;
    var d := m[i];
    Listed(m, i, s);
    var listed := Send(s, ReadSteps(d.version));
    var rows := RowsOf(s.db, d.version);
    if listed.1 && Matches(rows, d) {
      RowsTaken(m, i, listed.0);
      VersionWritten(m, i, listed.0, RUNNING);
      var started := if complete then (listed.0, true) else WriteVersionStatus(listed.0, d, RUNNING);
      if started.1 {
        SameRecords(m, i, 0, listed.0, started.0, rows);
        var p0 := Progress(started.0, r, false);
        StepsChecked(m, i, 0, p0, rows, complete);
        var q := MigrateSteps(p0, d, 0, rows, complete);
        ElsewhereTransitive(s.db, started.0.db, q.session.db, d.version);
        if !q.returned {
          FinishChecked(m, i, q, complete, rows);
          ElsewhereTransitive(s.db, q.session.db, FinishVersion(q, d, complete).session.db, d.version);
        }
      }
    }
  }

  lemma Listed(m: Manifest, i: int, s: Session)
    requires Between(m, i, s) && i < |m|
    ensures
      var listed := Send(s, ReadSteps(m[i].version));
      Idle(listed.0) && listed.0.db == s.db && Elsewhere(s.db, listed.0.db, m[i].version) &&
      (listed.1 ==> Between(m, i, listed.0) && Fit(listed.0))
  {
    hide Send;
    SendAlone(s, ReadSteps(m[i].version));
  }

  lemma FinishChecked(m: Manifest, i: int, q: Progress, complete: bool, rows: map<string, StepRow>)
    requires !q.returned && 0 <= i < |m| && Checked(m, i, |m[i].steps|, q.session, rows)
    requires complete ==> RowExact(m, q.session.db, i)
    ensures
      var f := FinishVersion(q, m[i], complete);
      Idle(f.session) && Elsewhere(q.session.db, f.session.db, m[i].version) &&
      (!f.returned ==> Between(m, i + 1, f.session) && RowExact(m, f.session.db, i))
  {
    hide Send, Checked, Elsewhere, Between;
    CheckedFits(m, i, |m[i].steps|, q.session, rows);
    VersionWritten(m, i, q.session, SUCCEEDED);
    var f := FinishVersion(q, m[i], complete);
    if !f.returned {
      LastStepDone(m, i, q.session, f.session, rows);
    }
  }

  lemma VersionChecked(m: Manifest, i: int, s: Session, r: Report)
    requires Between(m, i, s) && i < |m|
    ensures
      var p := MigrateVersion(s, r, m[i]);
      Idle(p.session) && Elsewhere(s.db, p.session.db, m[i].version) &&
      (!p.returned ==> Between(m, i + 1, p.session) && RowExact(m, p.session.db, i))
  {
    hide Send, MigrateRows, Elsewhere;
    SendAlone(s, ReadVersion(m[i].version));
    var read := Send(s, ReadVersion(m[i].version)).0;
    ElsewhereReflexive(s.db, m[i].version);
    var versions := s.db.versions;
    if Send(s, ReadVersion(m[i].version)).1 {
      if m[i].version in versions ==> versions[m[i].version].name == m[i].name {
        RowsChecked(m, i, read, r, m[i].version in versions && versions[m[i].version].status == SUCCEEDED);
      }
    }
  }

  lemma ElsewhereReflexive(db: Database, version: nat)
    ensures Elsewhere(db, db, version)
  {
  }

  predicate Names(m: Manifest, version: nat) {
    exists k :: 0 <= k < |m| && m[k].version == version
  }

  /** The rows of versions outside the manifest are untouched. */
  ghost predicate Foreign(m: Manifest, db: Database, db': Database) {
    (forall key: StepKey :: !Names(m, key.version) ==>
      (key in db.steps <==> key in db'.steps) && db.effects[key] == db'.effects[key]) &&
    (forall key: StepKey :: !Names(m, key.version) && key in db.steps && key in db'.steps ==>
      db'.steps[key] == db.steps[key]) &&
    (forall v: nat :: !Names(m, v) ==> (v in db.versions <==> v in db'.versions)) &&
    (forall v: nat :: !Names(m, v) && v in db.versions && v in db'.versions ==> db'.versions[v] == db.versions[v])
  }

  lemma ElsewhereForeign(m: Manifest, i: int, db: Database, db': Database, db'': Database)
    requires 0 <= i < |m| && Elsewhere(db, db', m[i].version) && Foreign(m, db', db'')
    ensures Foreign(m, db, db'')
  {
    assert Names(m, m[i].version);
  }

  /** The first n versions have their SUCCEEDED rows. */
  ghost predicate RowsExact(m: Manifest, db: Database, n: int)
    requires n <= |m|
  {
    forall k :: 0 <= k < n ==> RowExact(m, db, k)
  }

  lemma OneMoreRow(m: Manifest, i: int, db: Database, db': Database)
    requires Distinct(m) && 0 <= i < |m| && RowsExact(m, db, i) && Elsewhere(db, db', m[i].version)
    requires RowExact(m, db', i)
    ensures RowsExact(m, db', i + 1)
  {
    forall k | 0 <= k < i
      ensures RowExact(m, db', k)
    {
      assert RowExact(m, db, k);
    }
  }

  lemma {:induction false} VersionsChecked(m: Manifest, i: nat, p: Progress)
    requires Between(m, i, p.session) && !p.returned && RowsExact(m, p.session.db, i)
    ensures
      var q := MigrateVersions(p, m, i);
      Idle(q.session) && Foreign(m, p.session.db, q.session.db) &&
      (!q.returned ==> Between(m, |m|, q.session) && RowsExact(m, q.session.db, |m|))
    decreases |m| - i
  {
    ForeignReflexive(m, p.session.db);
    if i < |m| {
      hide MigrateVersion, Elsewhere, Foreign, RowExact, RowsExact, ExactBefore;
      var next := MigrateVersion(p.session, p.report, m[i]);
      VersionChecked(m, i, p.session, p.report);
      ForeignReflexive(m, next.session.db);
      if next.returned {
        ElsewhereForeign(m, i, p.session.db, next.session.db, next.session.db);
      } else {
        OneMoreRow(m, i, p.session.db, next.session.db);
        VersionsChecked(m, i + 1, next);
        ElsewhereForeign(m, i, p.session.db, next.session.db, MigrateVersions(next, m, i + 1).session.db);
      }
    }
  }

  lemma ForeignReflexive(m: Manifest, db: Database)
    ensures Foreign(m, db, db)
  {
  }

  lemma LockedChecked(m: Manifest, s: Session, r: Report, boots: seq<BootstrapStep>)
    requires Distinct(m) && Fit(s)
    ensures
      var p := RunLocked(s, r, m, boots);
      Idle(p.session) && Foreign(m, s.db, p.session.db) &&
      (!p.returned ==> Between(m, |m|, p.session) && RowsExact(m, p.session.db, |m|))
  {
    hide Bootstraps, MigrateVersions, Foreign, RowExact;
    ForeignReflexive(m, s.db);
    if boots != [] {
      var p0 := Progress(s, r, false);
      BootstrapsRead(p0, boots, 0);
      var p := Bootstraps(p0, boots, 0);
      if !p.returned {
        VersionsChecked(m, 0, p.(report := p.report.(succeeded := true)));
      }
    }
  }

  /**
   Success can be trusted from any metadata whatever: all bootstrap files passed, every required step
   has exactly the SUCCEEDED record of the manifest and every version its SUCCEEDED row. However a
   run ends, its connection is poisoned or fit for reuse, and rows of versions outside the manifest
   are untouched; if a bootstrap file does not pass, so is every row.
   */
  lemma {:induction false} SuccessIsExact(m: Manifest, boots: seq<BootstrapStep>, s: Session)
    requires Distinct(m) && Fit(s)
    ensures
      var t := Run(s, m, boots).0;
      (t.poisoned || Fit(t)) && Foreign(m, s.db, t.db) &&
      (!Bootable(boots, s.env) ==> t.db == s.db) &&
      (Run(s, m, boots).1.succeeded ==>
        Bootable(boots, s.env) && Fit(t) &&
        (forall i, j :: IsRequired(m, i, j) ==> Exact(m, t.db, i, j)) &&
        RowsExact(m, t.db, |m|))
  {
    hide Send, RunLocked, Foreign, RowsExact, Exact, Bootable;
    ForeignReflexive(m, s.db);
    LockKeepsRows(s, GetLock);
    var acquired := Send(s, GetLock);
    if acquired.1 && acquired.0.locked {
      var p := RunLocked(acquired.0, InitialReport(m), m, boots);
      LockedChecked(m, acquired.0, InitialReport(m), boots);
      LockedOnlyBooted(m, boots, acquired.0, InitialReport(m));
      LockKeepsRows(p.session, ReleaseLock);
      LockedTally(acquired.0, m, boots);
      if !p.returned {
        forall i, j | IsRequired(m, i, j)
          ensures Exact(m, p.session.db, i, j)
        {
          assert Earlier(i, j, |m|, 0);
        }
      }
    }
  }

  lemma LockKeepsRows(s: Session, stmt: Statement)
    requires IsLockStatement(stmt) && Idle(s)
    ensures
      var r := Send(s, stmt);
      Idle(r.0) && r.0.db == s.db && r.0.env == s.env && (r.1 ==> Fit(r.0))
  {
  }

  // ---- Exactly which recorded rows are accepted ----

  /**
   The recorded rows of version i pass the cross-check: its name is unchanged, every recorded step
   belongs to the manifest with the same metadata, and a version marked SUCCEEDED lacks nothing.
   */
  ghost predicate Passes(m: Manifest, i: int, db: Database)
    requires 0 <= i < |m|
  {
    (m[i].version in db.versions ==> db.versions[m[i].version].name == m[i].name) &&
    Matches(RowsOf(db, m[i].version), m[i]) &&
    (VersionDone(db, m[i].version) ==> forall j :: IsRequired(m, i, j) ==> Succeeded(db, KeyAt(m, i, j)))
  }

  lemma PassesElsewhere(m: Manifest, i: int, k: int, db: Database, db': Database)
    requires Distinct(m) && 0 <= i < k < |m| && Elsewhere(db, db', m[i].version)
    ensures Passes(m, k, db) <==> Passes(m, k, db')
  {
    assert RowsOf(db, m[k].version) == RowsOf(db', m[k].version);
    forall j | IsRequired(m, k, j)
      ensures Succeeded(db, KeyAt(m, k, j)) <==> Succeeded(db', KeyAt(m, k, j))
    {
    }
  }

  /** Without faults a step of a version that is not complete is always brought to its end. */
  lemma StepAnswer(m: Manifest, i: int, j: int, s: Session, r: Report, rows: map<string, StepRow>)
    requires Checked(m, i, j, s, rows) && j < |m[i].steps| && Faultless(s) && ChecksHold(m, s.env)
    ensures !MigrateStep(s, r, m[i], m[i].steps[j], rows, false).returned
  {
    var d, step := m[i], m[i].steps[j];
    if Settled(rows, step) {
      SettledStep(m, i, j, s, r, rows, false);
    } else {
      UnsettledWorks(m, i, j, s, r, rows);
      assert IsRequired(m, i, j);
      if step.id in rows {
        RecoveryConverges(s, r, d, step);
      } else {
        AnsweredExecution(s, r, d, step);
      }
    }
  }

  lemma {:induction false} StepsAnswer(m: Manifest, i: int, k: nat, p: Progress, rows: map<string, StepRow>)
    requires Checked(m, i, k, p.session, rows) && !p.returned
    requires Faultless(p.session) && ChecksHold(m, p.session.env)
    ensures !MigrateSteps(p, m[i], k, rows, false).returned
    decreases |m[i].steps| - k
  {
    if k < |m[i].steps| {
      hide MigrateStep, Checked, ChecksHold;
      var next := MigrateStep(p.session, p.report, m[i], m[i].steps[k], rows, false);
      StepAnswer(m, i, k, p.session, p.report, rows);
      StepChecked(m, i, k, p.session, p.report, rows, false);
      StepFrame(p.session, p.report, m[i], m[i].steps[k], rows, false);
      CheckedFits(m, i, k + 1, next.session, rows);
      StepsAnswer(m, i, k + 1, next, rows);
    }
  }

  lemma SettledExactly(m: Manifest, i: int, db: Database)
    requires Distinct(m) && 0 <= i < |m|
    ensures
      (forall j :: 0 <= j < |m[i].steps| ==> Settled(RowsOf(db, m[i].version), m[i].steps[j])) <==>
      (forall j :: IsRequired(m, i, j) ==> Succeeded(db, KeyAt(m, i, j)))
  {
    var rows := RowsOf(db, m[i].version);
    forall j | 0 <= j < |m[i].steps|
      ensures Settled(rows, m[i].steps[j]) <==> (IsRequired(m, i, j) ==> Succeeded(db, KeyAt(m, i, j)))
    {
      assert m[i].steps[j].id in rows <==> KeyAt(m, i, j) in db.steps;
    }
    if forall j :: 0 <= j < |m[i].steps| ==> Settled(rows, m[i].steps[j]) {
      forall j | IsRequired(m, i, j)
        ensures Succeeded(db, KeyAt(m, i, j))
      {
        assert Settled(rows, m[i].steps[j]);
      }
    }
  }

  lemma RowsAnswer(m: Manifest, i: int, s: Session, r: Report)
    requires 0 <= i < |m| && Between(m, i, s) && Faultless(s) && ChecksHold(m, s.env)
    requires m[i].version in s.db.versions ==> s.db.versions[m[i].version].name == m[i].name
    ensures !MigrateRows(s, r, m[i], VersionDone(s.db, m[i].version)).returned <==> Passes(m, i, s.db)
  {
    hide Send, MigrateSteps, RowsOf, Matches, Checked, Elsewhere, ChecksHold, Settled;
    var d, complete := m[i], VersionDone(s.db, m[i].version);
    AnsweredSend(s, ReadSteps(d.version));
    Listed(m, i, s);
    var listed := Send(s, ReadSteps(d.version)).0;
    var rows := RowsOf(s.db, d.version);
    if Matches(rows, d) {
      RowsTaken(m, i, listed);
      SettledExactly(m, i, s.db);
      VersionWritten(m, i, listed, RUNNING);
      AnsweredSend(listed, WriteVersion(d.version, VersionRow(d.name, RUNNING)));
      var started := if complete then listed else WriteVersionStatus(listed, d, RUNNING).0;
      SameRecords(m, i, 0, listed, started, rows);
      var p0 := Progress(started, r, false);
      StepsChecked(m, i, 0, p0, rows, complete);
      if !complete {
        StepsAnswer(m, i, 0, p0, rows);
        var q := MigrateSteps(p0, d, 0, rows, complete);
        StepsStayFaultless(p0, m, i, rows);
        AnsweredSend(q.session, WriteVersion(d.version, VersionRow(d.name, SUCCEEDED)));
      }
    }
  }

  lemma StepsStayFaultless(p: Progress, m: Manifest, i: int, rows: map<string, StepRow>)
    requires 0 <= i < |m| && Checked(m, i, 0, p.session, rows) && !p.returned && Faultless(p.session)
    requires !MigrateSteps(p, m[i], 0, rows, false).returned
    ensures Faultless(MigrateSteps(p, m[i], 0, rows, false).session)
  {
    hide MigrateSteps, Checked;
    StepsChecked(m, i, 0, p, rows, false);
    CheckedFits(m, i, |m[i].steps|, MigrateSteps(p, m[i], 0, rows, false).session, rows);
    StepsFrame(p, m[i], 0, rows, false);
  }

  lemma VersionAnswer(m: Manifest, i: int, s: Session, r: Report)
    requires 0 <= i < |m| && Between(m, i, s) && Faultless(s) && ChecksHold(m, s.env)
    ensures !MigrateVersion(s, r, m[i]).returned <==> Passes(m, i, s.db)
  {
    hide Send, MigrateRows, ChecksHold, RowsOf, Matches;
    AnsweredSend(s, ReadVersion(m[i].version));
    SendAlone(s, ReadVersion(m[i].version));
    var read := Send(s, ReadVersion(m[i].version)).0;
    if m[i].version in s.db.versions ==> s.db.versions[m[i].version].name == m[i].name {
      RowsAnswer(m, i, read, r);
    }
  }

  ghost predicate AllPass(m: Manifest, i: int, db: Database) {
    forall k :: 0 <= i <= k < |m| ==> Passes(m, k, db)
  }

  lemma RestPasses(m: Manifest, i: int, db: Database, db': Database)
    requires Distinct(m) && 0 <= i < |m| && Elsewhere(db, db', m[i].version)
    ensures AllPass(m, i, db) <==> Passes(m, i, db) && AllPass(m, i + 1, db')
  {
    hide Elsewhere, Passes;
    forall k | i < k < |m|
      ensures Passes(m, k, db) <==> Passes(m, k, db')
    {
      PassesElsewhere(m, i, k, db, db');
    }
  }

  lemma StillFaultless(m: Manifest, i: nat, s: Session, t: Session)
    requires Between(m, i, t) && Frame(s, t) && Faultless(s)
    ensures Faultless(t) && t.env == s.env
  {
  }

  lemma NothingLeft(m: Manifest, db: Database)
    ensures AllPass(m, |m|, db)
  {
  }

  lemma WithinManifest(m: Manifest, i: nat, s: Session)
    requires Between(m, i, s)
    ensures i <= |m| && Distinct(m)
  {
  }

  lemma {:induction false} VersionsAnswer(m: Manifest, i: nat, p: Progress)
    requires Between(m, i, p.session) && !p.returned && Faultless(p.session) && ChecksHold(m, p.session.env)
    ensures !MigrateVersions(p, m, i).returned <==> AllPass(m, i, p.session.db)
    decreases |m| - i
  {
    WithinManifest(m, i, p.session);
    hide MigrateVersion, Between, Frame, Faultless, Elsewhere, Passes, AllPass, ChecksHold, Distinct;
    if i < |m| {
      var next := MigrateVersion(p.session, p.report, m[i]);
      VersionAnswer(m, i, p.session, p.report);
      VersionChecked(m, i, p.session, p.report);
      RestPasses(m, i, p.session.db, next.session.db);
      if !next.returned {
        VersionFrame(p.session, p.report, m[i]);
        StillFaultless(m, i + 1, p.session, next.session);
        VersionsAnswer(m, i + 1, next);
      }
    } else {
      NothingLeft(m, p.session.db);
    }
  }

  /**
   The cross-check is exact: from any metadata, a run on which nothing else stands in the way
   succeeds if and only if every bootstrap file and the recorded rows of every version pass.
   */
  lemma {:induction false} CrossCheckExact(m: Manifest, boots: seq<BootstrapStep>, s: Session)
    requires Distinct(m) && Clear(m, s)
    ensures Run(s, m, boots).1.succeeded <==> Bootable(boots, s.env) && AllPass(m, 0, s.db)
  {
    hide Run, Bootable, AllPass;
    if Bootable(boots, s.env) {
      BootedAnswer(m, boots, s);
    } else {
      SuccessIsExact(m, boots, s);
    }
  }

  lemma BootedAnswer(m: Manifest, boots: seq<BootstrapStep>, s: Session)
    requires Distinct(m) && Clear(m, s) && Bootable(boots, s.env)
    ensures Run(s, m, boots).1.succeeded <==> AllPass(m, 0, s.db)
  {
    hide Send, Bootstraps, MigrateVersions, ChecksHold, Bootable, AllPass;
    AnsweredSend(s, GetLock);
    var s1 := Send(s, GetLock).0;
    var p0 := Progress(s1, InitialReport(m), false);
    BootableNotEmpty(boots, s1.env);
    BootstrapsRead(p0, boots, 0);
    BootstrapsFrame(p0, boots, 0);
    BootstrapsConverge(p0, boots, 0);
    var q := Bootstraps(p0, boots, 0);
    var started := q.(report := q.report.(succeeded := true));
    VersionsAnswer(m, 0, started);
    VersionsFrame(started, m, 0);
    LockedTally(s1, m, boots);
    if !MigrateVersions(started, m, 0).returned {
      LockedChecked(m, s1, InitialReport(m), boots);
      AnsweredSend(MigrateVersions(started, m, 0).session, ReleaseLock);
    }
  }
}
