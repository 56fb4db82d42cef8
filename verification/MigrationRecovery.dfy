/** What every run of an unchanged manifest keeps, however it is interrupted. */
module MigrationRecovery {
  import opened Sql
  import opened Migration
  import StatementScanner
  import opened MigrationSteps

  type Manifest = seq<Definition>

  /** What discovery guarantees: distinct versions, and distinct step ids within a version. */
  predicate Distinct(m: Manifest) {
    && (forall i, j :: 0 <= i < j < |m| ==> m[i].version != m[j].version)
    && (forall i :: 0 <= i < |m| ==> DistinctIds(m[i].steps))
  }

  predicate DistinctIds(steps: seq<Step>) {
    forall j, k :: 0 <= j < k < |steps| ==> steps[j].id != steps[k].id
  }

  predicate Valid(m: Manifest, i: int, j: int) {
    0 <= i < |m| && 0 <= j < |m[i].steps|
  }

  function KeyAt(m: Manifest, i: int, j: int): StepKey
    requires Valid(m, i, j)
  {
    Key(m[i], m[i].steps[j])
  }

  predicate IsRequired(m: Manifest, i: int, j: int) {
    Valid(m, i, j) && !m[i].steps[j].phase.Cleanup?
  }

  /** Run order. */
  predicate Earlier(i': int, j': int, i: int, j: int) {
    i' < i || (i' == i && j' < j)
  }

  /** Every required step before position (i, j) is recorded SUCCEEDED. */
  ghost predicate DoneBefore(m: Manifest, db: Database, i: int, j: int) {
    forall i', j' :: IsRequired(m, i', j') && Earlier(i', j', i, j) ==> Succeeded(db, KeyAt(m, i', j'))
  }

  /** Records exist in run order only, repeat the manifest, and speak the truth about the effect. */
  ghost predicate StepOk(m: Manifest, db: Database, i: int, j: int)
    requires Valid(m, i, j)
  {
    var step := m[i].steps[j];
    var key := KeyAt(m, i, j);
    && (key in db.steps ==>
          !step.phase.Cleanup? && SameMetadata(db.steps[key], step) && DoneBefore(m, db, i, j))
    && (Succeeded(db, key) && !step.execution.Check? ==> db.effects[key] >= 1)
    && (db.effects[key] >= 1 ==> key in db.steps && !step.execution.Check?)
  }

  predicate VersionDone(db: Database, version: nat) {
    version in db.versions && db.versions[version].status == SUCCEEDED
  }

  ghost predicate VersionOk(m: Manifest, db: Database, i: int)
    requires 0 <= i < |m|
  {
    && (m[i].version in db.versions ==> db.versions[m[i].version].name == m[i].name)
    && (VersionDone(db, m[i].version) ==> DoneBefore(m, db, i, |m[i].steps|))
    && (forall key :: key in db.steps && key.version == m[i].version ==>
          key.id in StepIds(m[i]) && m[i].version in db.versions)
  }

  /** The invariant between any two statements of any run. */
  ghost predicate Consistent(m: Manifest, db: Database) {
    && (forall i, j :: Valid(m, i, j) ==> StepOk(m, db, i, j))
    && (forall i :: 0 <= i < |m| ==> VersionOk(m, db, i))
  }

  /** No apply statement of the manifest has taken effect twice. */
  ghost predicate Once(m: Manifest, db: Database) {
    forall i, j :: Valid(m, i, j) ==> db.effects[KeyAt(m, i, j)] <= 1
  }

  /** Facts that are never taken back: SUCCEEDED records of steps and versions, and effects. */
  ghost predicate Advances(db: Database, db': Database) {
    && (forall key :: Succeeded(db, key) ==> key in db'.steps && db'.steps[key] == db.steps[key])
    && (forall v :: VersionDone(db, v) ==> v in db'.versions && db'.versions[v] == db.versions[v])
    && (forall key :: db'.effects[key] >= db.effects[key])
  }

  lemma EmptyConsistent(m: Manifest)
    ensures Consistent(m, EMPTY_DATABASE) && Once(m, EMPTY_DATABASE)
  {
  }

  lemma KeysDistinct(m: Manifest, i: int, j: int, i': int, j': int)
    requires Distinct(m) && Valid(m, i, j) && Valid(m, i', j') && KeyAt(m, i, j) == KeyAt(m, i', j')
    ensures i == i' && j == j'
  {
  }

  lemma DoneStays(m: Manifest, db: Database, db': Database, i: int, j: int)
    requires Advances(db, db') && DoneBefore(m, db, i, j)
    ensures DoneBefore(m, db', i, j)
  {
    forall i', j' | IsRequired(m, i', j') && Earlier(i', j', i, j) ensures Succeeded(db', KeyAt(m, i', j')) {
      assert Succeeded(db, KeyAt(m, i', j'));
    }
  }

  /** Working on the next step keeps the invariant. */
  lemma WorkKeeps(m: Manifest, i: int, j: int, s: Session, p: Progress)
    requires Distinct(m) && IsRequired(m, i, j) && Consistent(m, s.db) && DoneBefore(m, s.db, i, j)
    requires !Succeeded(s.db, KeyAt(m, i, j)) && !VersionDone(s.db, m[i].version) && m[i].version in s.db.versions
    requires Worked(s, p, m[i], m[i].steps[j])
    ensures Consistent(m, p.session.db) && Advances(s.db, p.session.db)
    ensures Once(m, s.db) && p.session.db.effects[KeyAt(m, i, j)] <= 1 ==> Once(m, p.session.db)
    ensures !VersionDone(p.session.db, m[i].version) && m[i].version in p.session.db.versions
  {
    var db, db', key := s.db, p.session.db, KeyAt(m, i, j);
    forall i', j' | Valid(m, i', j') ensures StepOk(m, db', i', j') {
      WorkKeepsStep(m, i, j, s, p, i', j');
    }
    forall i' | 0 <= i' < |m| ensures VersionOk(m, db', i') {
      WorkKeepsVersion(m, i, j, s, p, i');
    }
  }

  lemma WorkKeepsVersion(m: Manifest, i: int, j: int, s: Session, p: Progress, i': int)
    requires Distinct(m) && IsRequired(m, i, j) && 0 <= i' < |m| && VersionOk(m, s.db, i')
    requires m[i].version in s.db.versions && !VersionDone(s.db, m[i].version) && Advances(s.db, p.session.db)
    requires Worked(s, p, m[i], m[i].steps[j]) && VersionOk(m, s.db, i)
    ensures VersionOk(m, p.session.db, i')
  {
    hide DoneBefore;
    assert m[i].steps[j] in m[i].steps;
    if VersionDone(p.session.db, m[i'].version) {
      DoneStays(m, s.db, p.session.db, i', |m[i'].steps|);
    }
  }

  lemma WorkKeepsStep(m: Manifest, i: int, j: int, s: Session, p: Progress, i': int, j': int)
    requires Distinct(m) && IsRequired(m, i, j) && Valid(m, i', j') && DoneBefore(m, s.db, i, j)
    requires !Succeeded(s.db, KeyAt(m, i, j)) && Advances(s.db, p.session.db) && StepOk(m, s.db, i', j')
    requires Worked(s, p, m[i], m[i].steps[j])
    ensures StepOk(m, p.session.db, i', j')
  {
    if KeyAt(m, i', j') == KeyAt(m, i, j) {
      KeysDistinct(m, i, j, i', j');
    }
    if KeyAt(m, i', j') in p.session.db.steps {
      DoneStays(m, s.db, p.session.db, i', j');
    }
  }

  /** The rows read at the start of a version still describe the steps from position `k` on. */
  ghost predicate Snapshot(db: Database, d: Definition, k: int, rows: map<string, StepRow>) {
    forall j :: 0 <= k <= j < |d.steps| ==>
      (d.steps[j].id in rows <==> Key(d, d.steps[j]) in db.steps) &&
      (d.steps[j].id in rows ==> rows[d.steps[j].id] == db.steps[Key(d, d.steps[j])])
  }

  /** What holds before step `j` of definition `i`. */
  ghost predicate AtStep(m: Manifest, i: int, j: int, s: Session, rows: map<string, StepRow>, complete: bool) {
    && Distinct(m) && 0 <= i < |m| && 0 <= j <= |m[i].steps|
    && Fit(s) && Consistent(m, s.db) && DoneBefore(m, s.db, i, j)
    && Snapshot(s.db, m[i], j, rows)
    && m[i].version in s.db.versions && complete == VersionDone(s.db, m[i].version)
  }

  /** What any stretch of a run does to the rows of the manifest. */
  ghost predicate Keeps(m: Manifest, s: Session, t: Session) {
    && Frame(s, t)
    && Consistent(m, t.db) && Advances(s.db, t.db) && Idle(t)
    && (Once(m, s.db) && Attended(t) ==> Once(m, t.db))
  }

  lemma KeepsTransitive(m: Manifest, s: Session, t: Session, u: Session)
    requires Keeps(m, s, t) && Keeps(m, t, u)
    ensures Keeps(m, s, u)
  {
    hide Frame;
    FrameTransitive(s, t, u);
    if Attended(u) {
      AttendedEarlier(t, u);
    }
  }

  lemma {:induction false} StepKeeps(m: Manifest, i: int, j: int, s: Session, r: Report,
                                     rows: map<string, StepRow>, complete: bool)
    requires AtStep(m, i, j, s, rows, complete) && j < |m[i].steps|
    ensures var p := MigrateStep(s, r, m[i], m[i].steps[j], rows, complete);
      && Keeps(m, s, p.session)
      && (complete ==> p.session.db == s.db)
      && (!p.returned ==> AtStep(m, i, j + 1, p.session, rows, complete))
  {
    var d, step, key := m[i], m[i].steps[j], KeyAt(m, i, j);
    var p := MigrateStep(s, r, d, step, rows, complete);
    assert StepOk(m, s.db, i, j);
    hide Frame, Snapshot;
    StepFrame(s, r, d, step, rows, complete);
    if step.phase.Cleanup? || Succeeded(s.db, key) || complete {
      SnapshotShrinks(s.db, d, j, rows);
      KeepsReflexive(m, s);
      StepSkipped(m, i, j, s, r, rows, complete);
    } else {
      StepWorks(m, i, j, s, r, rows);
      var db' := p.session.db;
      WorkKeeps(m, i, j, s, p);
      if !p.returned {
        DoneStays(m, s.db, db', i, j);
        SnapshotStays(d, j, s, p, rows);
        StepDone(m, db', i, j);
      }
    }
  }

  lemma StepDone(m: Manifest, db: Database, i: int, j: int)
    requires Valid(m, i, j) && DoneBefore(m, db, i, j) && Succeeded(db, KeyAt(m, i, j))
    ensures DoneBefore(m, db, i, j + 1)
  {
  }

  lemma SnapshotShrinks(db: Database, d: Definition, j: int, rows: map<string, StepRow>)
    requires 0 <= j && Snapshot(db, d, j, rows)
    ensures Snapshot(db, d, j + 1, rows)
  {
  }

  lemma SnapshotStays(d: Definition, j: int, s: Session, p: Progress, rows: map<string, StepRow>)
    requires DistinctIds(d.steps) && 0 <= j < |d.steps| && Snapshot(s.db, d, j, rows)
    requires Worked(s, p, d, d.steps[j])
    ensures Snapshot(p.session.db, d, j + 1, rows)
  {
    var db' := p.session.db;
    forall j' | j + 1 <= j' < |d.steps|
      ensures d.steps[j'].id in rows <==> Key(d, d.steps[j']) in db'.steps
      ensures d.steps[j'].id in rows ==> rows[d.steps[j'].id] == db'.steps[Key(d, d.steps[j'])]
    {
      assert Key(d, d.steps[j']) != Key(d, d.steps[j]);
    }
  }

  /** A step that is deferred, recorded SUCCEEDED, or part of a finished version changes no row. */
  lemma StepSkipped(m: Manifest, i: int, j: int, s: Session, r: Report, rows: map<string, StepRow>, complete: bool)
    requires AtStep(m, i, j, s, rows, complete) && j < |m[i].steps|
    requires m[i].steps[j].phase.Cleanup? || Succeeded(s.db, KeyAt(m, i, j)) || complete
    ensures var p := MigrateStep(s, r, m[i], m[i].steps[j], rows, complete);
      && p.session == s
      && (!p.returned ==> DoneBefore(m, s.db, i, j + 1))
  {
  }

  lemma StepWorks(m: Manifest, i: int, j: int, s: Session, r: Report, rows: map<string, StepRow>)
    requires AtStep(m, i, j, s, rows, false) && IsRequired(m, i, j)
    requires !Succeeded(s.db, KeyAt(m, i, j))
    ensures var p := MigrateStep(s, r, m[i], m[i].steps[j], rows, false);
      && Worked(s, p, m[i], m[i].steps[j])
      && (Once(m, s.db) && Attended(p.session) ==> p.session.db.effects[KeyAt(m, i, j)] <= 1)
  {
    var d, step := m[i], m[i].steps[j];
    assert StepOk(m, s.db, i, j);
    if step.id in rows {
      RecoverOutcome(s, r, d, step);
    } else {
      ExecuteOutcome(s, r, d, step);
    }
  }

  lemma {:induction false} StepsKeep(m: Manifest, i: int, k: nat, p: Progress,
                                     rows: map<string, StepRow>, complete: bool)
    requires AtStep(m, i, k, p.session, rows, complete) && !p.returned
    ensures var q := MigrateSteps(p, m[i], k, rows, complete);
      && Keeps(m, p.session, q.session)
      && (complete ==> q.session.db == p.session.db)
      && (!q.returned ==> AtStep(m, i, |m[i].steps|, q.session, rows, complete))
    decreases |m[i].steps| - k
  {
    KeepsReflexive(m, p.session);
    if k < |m[i].steps| {
      hide MigrateStep, Keeps;
      var next := MigrateStep(p.session, p.report, m[i], m[i].steps[k], rows, complete);
      StepKeeps(m, i, k, p.session, p.report, rows, complete);
      if !next.returned {
        StepsKeep(m, i, k + 1, next, rows, complete);
        KeepsTransitive(m, p.session, next.session, MigrateSteps(next, m[i], k + 1, rows, complete).session);
      }
    }
  }

  /** A statement that writes no row. */
  predicate IsRead(stmt: Statement) {
    stmt.ReadVersion? || stmt.ReadSteps? || stmt.Bootstrap? || stmt.VerifyBootstrap?
  }

  lemma ReadKeeps(m: Manifest, s: Session, stmt: Statement)
    requires Fit(s) && Consistent(m, s.db) && IsRead(stmt)
    ensures var r := Send(s, stmt);
      && Keeps(m, s, r.0) && r.0.db == s.db && (r.1 ==> Fit(r.0) && View(r.0) == s.db)
  {
    SendFrame(s, stmt);
    SendAlone(s, stmt);
  }

  /** The row of a version that is not done may become RUNNING, or SUCCEEDED once its steps are done. */
  lemma VersionWriteKeeps(m: Manifest, i: int, s: Session, status: Status)
    requires Distinct(m) && 0 <= i < |m| && Idle(s) && Consistent(m, s.db) && !VersionDone(s.db, m[i].version)
    requires status == SUCCEEDED ==> DoneBefore(m, s.db, i, |m[i].steps|)
    ensures var r := WriteVersionStatus(s, m[i], status);
      && Keeps(m, s, r.0)
      && r.0.db.steps == s.db.steps && r.0.db.effects == s.db.effects
      && (r.1 ==> Fit(r.0) && r.0.db.versions == s.db.versions[m[i].version := VersionRow(m[i].name, status)])
  {
    hide Send, DoneBefore, Frame;
    var stmt := WriteVersion(m[i].version, VersionRow(m[i].name, status));
    SendFrame(s, stmt);
    SendAlone(s, stmt);
    var db' := Send(s, stmt).0.db;
    forall i', j' | Valid(m, i', j') ensures StepOk(m, db', i', j') {
      assert StepOk(m, s.db, i', j');
      if KeyAt(m, i', j') in db'.steps {
        DoneStays(m, s.db, db', i', j');
      }
    }
    forall i' | 0 <= i' < |m| ensures VersionOk(m, db', i') {
      assert VersionOk(m, s.db, i');
      if VersionDone(db', m[i'].version) {
        DoneStays(m, s.db, db', i', |m[i'].steps|);
      }
    }
  }

  /** The recorded rows of a version never contradict an unchanged manifest. */
  lemma ConsistentMatches(m: Manifest, i: int, db: Database)
    requires Distinct(m) && Consistent(m, db) && 0 <= i < |m|
    ensures Matches(RowsOf(db, m[i].version), m[i])
    ensures Snapshot(db, m[i], 0, RowsOf(db, m[i].version))
  {
    var rows := RowsOf(db, m[i].version);
    assert VersionOk(m, db, i);
    forall id | id in rows
      ensures id in StepIds(m[i]) && SameMetadata(rows[id], Current(m[i].steps, id))
    {
      var key := StepKey(m[i].version, id);
      assert key in db.steps;
      var step := Current(m[i].steps, id);
      var j :| 0 <= j < |m[i].steps| && m[i].steps[j] == step;
      assert StepOk(m, db, i, j) && KeyAt(m, i, j) == key;
    }
    forall j | 0 <= j < |m[i].steps|
      ensures m[i].steps[j].id in rows <==> KeyAt(m, i, j) in db.steps
      ensures m[i].steps[j].id in rows ==> rows[m[i].steps[j].id] == db.steps[KeyAt(m, i, j)]
    {
    }
  }

  /** What holds between two versions. */
  ghost predicate AtVersion(m: Manifest, i: int, s: Session) {
    Distinct(m) && 0 <= i <= |m| && Fit(s) && Consistent(m, s.db) && DoneBefore(m, s.db, i, 0)
  }

  lemma RowsKeep(m: Manifest, i: int, s: Session, r: Report)
    requires AtVersion(m, i, s) && i < |m|
    ensures var p := MigrateRows(s, r, m[i], VersionDone(s.db, m[i].version));
      && Keeps(m, s, p.session)
      && (!p.returned ==> AtVersion(m, i + 1, p.session) && VersionDone(p.session.db, m[i].version))
  {
    hide Send, MigrateSteps, RowsOf, Matches, Frame;
    var d, complete := m[i], VersionDone(s.db, m[i].version);
    ReadKeeps(m, s, ReadSteps(d.version));
    var listed := Send(s, ReadSteps(d.version));
    if listed.1 {
      var rows := RowsOf(s.db, d.version);
      ConsistentMatches(m, i, s.db);
      if !complete {
        VersionWriteKeeps(m, i, listed.0, RUNNING);
      }
      var started := if complete then (listed.0, true) else WriteVersionStatus(listed.0, d, RUNNING);
      KeepsReflexive(m, listed.0);
      KeepsTransitive(m, s, listed.0, started.0);
      if started.1 {
        DoneStays(m, s.db, started.0.db, i, 0);
        var p0 := Progress(started.0, r, false);
        var q := MigrateSteps(p0, d, 0, rows, complete);
        StepsKeep(m, i, 0, p0, rows, complete);
        KeepsTransitive(m, s, started.0, q.session);
        if !q.returned {
          FinishKeeps(m, i, q, complete, rows);
          KeepsTransitive(m, s, q.session, FinishVersion(q, d, complete).session);
        }
      }
    }
  }

  lemma FinishKeeps(m: Manifest, i: int, q: Progress, complete: bool, rows: map<string, StepRow>)
    requires !q.returned && 0 <= i < |m| && AtStep(m, i, |m[i].steps|, q.session, rows, complete)
    ensures var f := FinishVersion(q, m[i], complete);
      && Keeps(m, q.session, f.session)
      && (!f.returned ==> AtVersion(m, i + 1, f.session) && VersionDone(f.session.db, m[i].version))
  {
    KeepsReflexive(m, q.session);
    hide Send, Frame;
    if !complete {
      VersionWriteKeeps(m, i, q.session, SUCCEEDED);
    }
    var f := FinishVersion(q, m[i], complete);
    DoneStays(m, q.session.db, f.session.db, i, |m[i].steps|);
    forall i', j' | IsRequired(m, i', j') && Earlier(i', j', i + 1, 0)
      ensures Earlier(i', j', i, |m[i].steps|)
    {
    }
  }

  lemma VersionKeeps(m: Manifest, i: int, s: Session, r: Report)
    requires AtVersion(m, i, s) && i < |m|
    ensures var p := MigrateVersion(s, r, m[i]);
      && Keeps(m, s, p.session)
      && (!p.returned ==> AtVersion(m, i + 1, p.session) && VersionDone(p.session.db, m[i].version))
  {
    hide Send, MigrateRows;
    ReadKeeps(m, s, ReadVersion(m[i].version));
    var read := Send(s, ReadVersion(m[i].version));
    if read.1 {
      RowsKeep(m, i, read.0, r);
      KeepsTransitive(m, s, read.0, MigrateRows(read.0, r, m[i], VersionDone(s.db, m[i].version)).session);
    }
  }

  predicate AllDone(m: Manifest, db: Database, n: int)
    requires n <= |m|
  {
    forall k :: 0 <= k < n ==> VersionDone(db, m[k].version)
  }

  lemma OneMoreDone(m: Manifest, s: Session, t: Session, n: int)
    requires 0 <= n < |m| && Keeps(m, s, t) && AllDone(m, s.db, n) && VersionDone(t.db, m[n].version)
    ensures AllDone(m, t.db, n + 1)
  {
    forall k | 0 <= k < n ensures VersionDone(t.db, m[k].version) {
      assert VersionDone(s.db, m[k].version);
    }
  }

  lemma KeepsReflexive(m: Manifest, s: Session)
    requires Idle(s) && Consistent(m, s.db)
    ensures Keeps(m, s, s)
  {
    PoisonFrame(s);
  }

  lemma {:induction false} VersionsKeep(m: Manifest, i: nat, p: Progress)
    requires AtVersion(m, i, p.session) && !p.returned
    requires AllDone(m, p.session.db, i)
    ensures var q := MigrateVersions(p, m, i);
      && Keeps(m, p.session, q.session)
      && (!q.returned ==> AtVersion(m, |m|, q.session) && AllDone(m, q.session.db, |m|))
    decreases |m| - i
  {
    if i < |m| {
      hide MigrateVersion, Keeps;
      var next := MigrateVersion(p.session, p.report, m[i]);
      VersionKeeps(m, i, p.session, p.report);
      if !next.returned {
        OneMoreDone(m, p.session, next.session, i);
        VersionsKeep(m, i + 1, next);
        KeepsTransitive(m, p.session, next.session, MigrateVersions(next, m, i + 1).session);
      }
    } else {
      KeepsReflexive(m, p.session);
    }
  }

  lemma {:induction false} BootstrapsKeep(m: Manifest, p: Progress, boots: seq<BootstrapStep>, k: nat)
    requires k <= |boots| && Fit(p.session) && Consistent(m, p.session.db) && !p.returned
    ensures var q := Bootstraps(p, boots, k);
      && Keeps(m, p.session, q.session) && q.session.db == p.session.db
      && (!q.returned ==> Fit(q.session) && q.report == p.report)
    decreases |boots| - k
  {
    KeepsReflexive(m, p.session);
    hide StatementScanner.Accepts, Send, Keeps;
    if k < |boots| {
      var id := boots[k].id;
      ReadKeeps(m, p.session, Bootstrap(id));
      var created := Send(p.session, Bootstrap(id));
      if created.1 {
        ReadKeeps(m, created.0, VerifyBootstrap(id));
        var verified := Send(created.0, VerifyBootstrap(id));
        KeepsTransitive(m, p.session, created.0, verified.0);
        if verified.1 {
          var next := Progress(verified.0, p.report, false);
          BootstrapsKeep(m, next, boots, k + 1);
          KeepsTransitive(m, p.session, verified.0, Bootstraps(next, boots, k + 1).session);
        }
      }
    }
  }

  lemma LockedKeeps(m: Manifest, s: Session, r: Report, boots: seq<BootstrapStep>)
    requires Distinct(m) && Fit(s) && Consistent(m, s.db)
    ensures var p := RunLocked(s, r, m, boots);
      && Keeps(m, s, p.session)
      && (!p.returned ==> AtVersion(m, |m|, p.session) && AllDone(m, p.session.db, |m|))
  {
    KeepsReflexive(m, s);
    hide Bootstraps, MigrateVersions, Keeps;
    if boots != [] {
      var p := Bootstraps(Progress(s, r, false), boots, 0);
      BootstrapsKeep(m, Progress(s, r, false), boots, 0);
      if !p.returned {
        var started := p.(report := p.report.(succeeded := true));
        VersionsKeep(m, 0, started);
        KeepsTransitive(m, s, p.session, MigrateVersions(started, m, 0).session);
      }
    }
  }
}
