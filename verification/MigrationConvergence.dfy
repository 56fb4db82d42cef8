/** Runs without faults: they finish what interrupted runs began, and then change nothing more. */
module MigrationConvergence {
  import opened Sql
  import opened Migration
  import StatementScanner
  import opened MigrationSteps
  import opened MigrationRecovery
  import opened MigrationReports
  import opened MigrationRuns

  /** The target state of every required Check step can be found. */
  ghost predicate ChecksHold(m: Manifest, env: Environment) {
    forall i, j :: IsRequired(m, i, j) && m[i].steps[j].execution.Check? ==> KeyAt(m, i, j) in env.checks
  }

  /** A bootstrap file the runner accepts, on a table of the right structure. */
  predicate BootPasses(b: BootstrapStep, env: Environment) {
    StatementScanner.Accepts(b.applySql) && StatementScanner.Accepts(b.verifySql) && b.id !in env.incompatible
  }

  predicate Bootable(boots: seq<BootstrapStep>, env: Environment) {
    boots != [] && forall b :: b in boots ==> BootPasses(b, env)
  }

  lemma StepConverges(m: Manifest, i: int, j: int, s: Session, r: Report, rows: map<string, StepRow>, complete: bool)
    requires AtStep(m, i, j, s, rows, complete) && j < |m[i].steps|
    requires Faultless(s) && ChecksHold(m, s.env)
    ensures !MigrateStep(s, r, m[i], m[i].steps[j], rows, complete).returned
  {
    var d, step, key := m[i], m[i].steps[j], KeyAt(m, i, j);
    assert StepOk(m, s.db, i, j) && VersionOk(m, s.db, i);
    if !step.phase.Cleanup? && !Succeeded(s.db, key) {
      assert !complete by {
        assert IsRequired(m, i, j) && Earlier(i, j, i, |d.steps|);
      }
      if step.id in rows {
        RecoveryConverges(s, r, d, step);
      } else {
        AnsweredExecution(s, r, d, step);
      }
    }
  }

  lemma RecoveryConverges(s: Session, r: Report, d: Definition, step: Step)
    requires Faultless(s) && s.txn.None? && MetadataKept(s.db, d, step)
    requires step.execution.Check? ==> Key(d, step) in s.env.checks
    ensures !RecoverStep(s, r, d, step).returned
  {
    hide Send, ExecuteStep;
    AnsweredSend(s, Verify(Key(d, step), true));
    var checked := VerifyStep(s, d, step, true);
    AnsweredSend(checked.0, WriteStep(Key(d, step), RecordOf(step, SUCCEEDED)));
    AnsweredExecution(checked.0, r, d, step);
  }

  lemma {:induction false} StepsConverge(m: Manifest, i: int, k: nat, p: Progress,
                                          rows: map<string, StepRow>, complete: bool)
    requires AtStep(m, i, k, p.session, rows, complete) && !p.returned
    requires Faultless(p.session) && ChecksHold(m, p.session.env)
    ensures !MigrateSteps(p, m[i], k, rows, complete).returned
    decreases |m[i].steps| - k
  {
    if k < |m[i].steps| {
      hide MigrateStep, AtStep, ChecksHold;
      var step := m[i].steps[k];
      StepConverges(m, i, k, p.session, p.report, rows, complete);
      StepKeeps(m, i, k, p.session, p.report, rows, complete);
      var next := MigrateStep(p.session, p.report, m[i], step, rows, complete);
      StillHealthy(m, i, k + 1, next.session, rows, complete);
      StepsConverge(m, i, k + 1, next, rows, complete);
    }
  }

  lemma StillHealthy(m: Manifest, i: int, k: int, s: Session, rows: map<string, StepRow>, complete: bool)
    requires AtStep(m, i, k, s, rows, complete)
    ensures !s.poisoned
  {
  }

  lemma RowsConverge(m: Manifest, i: int, s: Session, r: Report)
    requires AtVersion(m, i, s) && i < |m| && Faultless(s) && ChecksHold(m, s.env)
    ensures !MigrateRows(s, r, m[i], VersionDone(s.db, m[i].version)).returned
  {
    hide Send, MigrateSteps, RowsOf, Matches, ChecksHold;
    var d, complete := m[i], VersionDone(s.db, m[i].version);
    AnsweredSend(s, ReadSteps(d.version));
    ReadKeeps(m, s, ReadSteps(d.version));
    var listed := Send(s, ReadSteps(d.version));
    ConsistentMatches(m, i, s.db);
    var rows := RowsOf(s.db, d.version);
    if !complete {
      AnsweredSend(listed.0, WriteVersion(d.version, VersionRow(d.name, RUNNING)));
      VersionWriteKeeps(m, i, listed.0, RUNNING);
    }
    var started := if complete then listed.0 else WriteVersionStatus(listed.0, d, RUNNING).0;
    DoneStays(m, s.db, started.db, i, 0);
    var p0 := Progress(started, r, false);
    StepsConverge(m, i, 0, p0, rows, complete);
    StepsKeep(m, i, 0, p0, rows, complete);
    if !complete {
      AnsweredSend(MigrateSteps(p0, d, 0, rows, complete).session,
                   WriteVersion(d.version, VersionRow(d.name, SUCCEEDED)));
    }
  }

  lemma VersionConverges(m: Manifest, i: int, s: Session, r: Report)
    requires AtVersion(m, i, s) && i < |m| && Faultless(s) && ChecksHold(m, s.env)
    ensures !MigrateVersion(s, r, m[i]).returned
  {
    hide Send, MigrateRows, ChecksHold;
    AnsweredSend(s, ReadVersion(m[i].version));
    ReadKeeps(m, s, ReadVersion(m[i].version));
    assert VersionOk(m, s.db, i);
    RowsConverge(m, i, Send(s, ReadVersion(m[i].version)).0, r);
  }

  lemma {:induction false} VersionsConverge(m: Manifest, i: nat, p: Progress)
    requires AtVersion(m, i, p.session) && !p.returned && Faultless(p.session) && ChecksHold(m, p.session.env)
    ensures !MigrateVersions(p, m, i).returned
    decreases |m| - i
  {
    hide MigrateVersion, ChecksHold, Consistent, DoneBefore, Distinct, Keeps;
    if i < |m| {
      VersionConverges(m, i, p.session, p.report);
      VersionKeeps(m, i, p.session, p.report);
      var next := MigrateVersion(p.session, p.report, m[i]);
      StaysFaultless(m, i + 1, p.session, next.session);
      VersionsConverge(m, i + 1, next);
    }
  }

  lemma StaysFaultless(m: Manifest, i: int, s: Session, t: Session)
    requires Faultless(s) && Keeps(m, s, t) && AtVersion(m, i, t)
    ensures Faultless(t) && t.env == s.env
  {
  }

  lemma {:induction false} BootstrapsConverge(p: Progress, boots: seq<BootstrapStep>, k: nat)
    requires k <= |boots| && Fit(p.session) && !p.returned
    requires Faultless(p.session) && Bootable(boots, p.session.env)
    ensures !Bootstraps(p, boots, k).returned
    decreases |boots| - k
  {
    if k < |boots| {
      hide StatementScanner.Accepts, Send;
      var id := boots[k].id;
      assert boots[k] in boots;
      AnsweredSend(p.session, Bootstrap(id));
      var created := Send(p.session, Bootstrap(id)).0;
      AnsweredSend(created, VerifyBootstrap(id));
      BootstrapsConverge(Progress(Send(created, VerifyBootstrap(id)).0, p.report, false), boots, k + 1);
    }
  }

  /** A session on which nothing but the metadata tables and the recorded rows can stand in the way of a run. */
  ghost predicate Clear(m: Manifest, s: Session) {
    Faultless(s) && s.txn.None? && !s.env.lockTaken && ChecksHold(m, s.env)
  }

  /** Without faults a run from any consistent state succeeds. */
  lemma RunConverges(m: Manifest, boots: seq<BootstrapStep>, s: Session)
    requires Distinct(m) && Consistent(m, s.db) && Clear(m, s) && Bootable(boots, s.env)
    ensures Run(s, m, boots).1.succeeded
  {
    hide Send, Bootstraps, MigrateVersions, Consistent, ChecksHold, Bootable;
    AnsweredSend(s, GetLock);
    var s1 := Send(s, GetLock).0;
    var p0 := Progress(s1, InitialReport(m), false);
    assert boots != [] by { BootableNotEmpty(boots, s1.env); }
    BootstrapsConverge(p0, boots, 0);
    BootstrapsKeep(m, p0, boots, 0);
    var q := Bootstraps(p0, boots, 0);
    var started := q.(report := q.report.(succeeded := true));
    NothingBefore(m, started.session);
    VersionsConverge(m, 0, started);
    VersionsKeep(m, 0, started);
    var p := MigrateVersions(started, m, 0);
    AnsweredSend(p.session, ReleaseLock);
    LockedTally(s1, m, boots);
  }

  lemma BootableNotEmpty(boots: seq<BootstrapStep>, env: Environment)
    requires Bootable(boots, env)
    ensures boots != []
  {
  }

  lemma NothingBefore(m: Manifest, s: Session)
    requires Distinct(m) && Fit(s) && Consistent(m, s.db)
    ensures AtVersion(m, 0, s)
  {
  }

  /**
   Convergence: whatever interrupted runs left behind, a run without faults succeeds and leaves
   every required step recorded SUCCEEDED.
   */
  lemma {:induction false} Convergence(m: Manifest, attempts: seq<Attempt>, last: Attempt)
    requires Distinct(m)
    requires Clear(m, Open(After(m, attempts, EMPTY_DATABASE), last.fates, last.env)) && Bootable(last.boots, last.env)
    ensures var (t, r) := Run(Open(After(m, attempts, EMPTY_DATABASE), last.fates, last.env), m, last.boots);
      r.succeeded && AllDone(m, t.db, |m|) && forall i, j :: IsRequired(m, i, j) ==> Succeeded(t.db, KeyAt(m, i, j))
  {
    hide After, Run, Consistent, Clear, Bootable;
    EmptyConsistent(m);
    EveryHistory(m, attempts, EMPTY_DATABASE);
    var s := Open(After(m, attempts, EMPTY_DATABASE), last.fates, last.env);
    RunConverges(m, last.boots, s);
    RunKeeps(m, last.boots, s);
    forall i, j | IsRequired(m, i, j) ensures Succeeded(Run(s, m, last.boots).0.db, KeyAt(m, i, j)) {
      assert Earlier(i, j, |m|, 0);
    }
  }

  // A run of a finished manifest.

  /** From `s` to `t` only statements that write no row were sent, and no row was written. */
  predicate OnlyReads(s: Session, t: Session) {
    s.log <= t.log && t.db == s.db && t.txn == s.txn &&
    forall k :: |s.log| <= k < |t.log| ==> IsRead(t.log[k].stmt)
  }

  predicate SameCounts(r: Report, r': Report) {
    r'.applied == r.applied && r'.versionsApplied == r.versionsApplied
  }

  lemma {:induction false} DoneSteps(m: Manifest, i: int, k: nat, p: Progress, rows: map<string, StepRow>)
    requires AtStep(m, i, k, p.session, rows, true) && !p.returned
    ensures var q := MigrateSteps(p, m[i], k, rows, true);
      q.session == p.session && SameCounts(p.report, q.report)
    decreases |m[i].steps| - k
  {
    if k < |m[i].steps| {
      hide MigrateStep, AtStep;
      var step := m[i].steps[k];
      StepSkipped(m, i, k, p.session, p.report, rows, true);
      StepKeeps(m, i, k, p.session, p.report, rows, true);
      StepReport(p.session, p.report, m[i], step, rows, true);
      var next := MigrateStep(p.session, p.report, m[i], step, rows, true);
      if !next.returned {
        DoneSteps(m, i, k + 1, next, rows);
      }
    }
  }

  lemma DoneVersion(m: Manifest, i: int, s: Session, r: Report)
    requires AtVersion(m, i, s) && i < |m| && VersionDone(s.db, m[i].version) && Faultless(s)
    ensures var p := MigrateVersion(s, r, m[i]);
      OnlyReads(s, p.session) && SameCounts(r, p.report)
  {
    hide Send, MigrateSteps, RowsOf, Matches;
    var d := m[i];
    AnsweredSend(s, ReadVersion(d.version));
    ReadKeeps(m, s, ReadVersion(d.version));
    var s1 := Send(s, ReadVersion(d.version)).0;
    AnsweredSend(s1, ReadSteps(d.version));
    ReadKeeps(m, s1, ReadSteps(d.version));
    var s2 := Send(s1, ReadSteps(d.version)).0;
    ConsistentMatches(m, i, s.db);
    assert VersionOk(m, s.db, i);
    DoneSteps(m, i, 0, Progress(s2, r, false), RowsOf(s.db, d.version));
  }

  lemma {:induction false} DoneVersions(m: Manifest, i: nat, p: Progress)
    requires AtVersion(m, i, p.session) && !p.returned && Faultless(p.session)
    requires AllDone(m, p.session.db, |m|)
    ensures var q := MigrateVersions(p, m, i);
      OnlyReads(p.session, q.session) && SameCounts(p.report, q.report)
    decreases |m| - i
  {
    hide MigrateVersion, Consistent, DoneBefore, Distinct, Keeps;
    if i < |m| {
      var next := MigrateVersion(p.session, p.report, m[i]);
      DoneVersion(m, i, p.session, p.report);
      ReadsLeaveRows(p.session, next.session);
      if !next.returned {
        VersionKeeps(m, i, p.session, p.report);
        StaysFaultless(m, i + 1, p.session, next.session);
        DoneVersions(m, i + 1, next);
        ReadsTransitive(p.session, next.session, MigrateVersions(next, m, i + 1).session);
      }
    }
  }

  lemma ReadsLeaveRows(s: Session, t: Session)
    requires OnlyReads(s, t)
    ensures t.db == s.db
  {
  }

  lemma ReadsTransitive(s: Session, t: Session, u: Session)
    requires OnlyReads(s, t) && OnlyReads(t, u)
    ensures OnlyReads(s, u)
  {
    forall k | |s.log| <= k < |u.log| ensures IsRead(u.log[k].stmt) {
      assert k < |t.log| ==> u.log[k] == t.log[k];
    }
  }

  lemma {:induction false} BootstrapsRead(p: Progress, boots: seq<BootstrapStep>, k: nat)
    requires k <= |boots| && Fit(p.session) && !p.returned
    ensures var q := Bootstraps(p, boots, k);
      OnlyReads(p.session, q.session) && SameCounts(p.report, q.report) &&
      (!q.returned ==> Fit(q.session) && q.report == p.report)
    decreases |boots| - k
  {
    if k < |boots| {
      hide StatementScanner.Accepts, Send;
      var id := boots[k].id;
      SendAlone(p.session, Bootstrap(id));
      var created := Send(p.session, Bootstrap(id));
      ReadSent(p.session, Bootstrap(id));
      if created.1 {
        ReadSent(created.0, VerifyBootstrap(id));
        var verified := Send(created.0, VerifyBootstrap(id));
        ReadsTransitive(p.session, created.0, verified.0);
        if verified.1 {
          var next := Progress(verified.0, p.report, false);
          BootstrapsRead(next, boots, k + 1);
          ReadsTransitive(p.session, verified.0, Bootstraps(next, boots, k + 1).session);
        }
      }
    }
  }

  lemma ReadSent(s: Session, stmt: Statement)
    requires Fit(s) && IsRead(stmt)
    ensures OnlyReads(s, Send(s, stmt).0) && (Send(s, stmt).1 ==> Fit(Send(s, stmt).0))
  {
  }

  /** Between the lock statements a finished manifest is only read. */
  lemma LockedReads(m: Manifest, boots: seq<BootstrapStep>, s: Session, r: Report)
    requires Distinct(m) && Fit(s) && Faultless(s) && Consistent(m, s.db) && AllDone(m, s.db, |m|)
    ensures var p := RunLocked(s, r, m, boots);
      OnlyReads(s, p.session) && SameCounts(r, p.report)
  {
    hide Send, Bootstraps, MigrateVersions, Consistent, AllDone, DoneBefore;
    if boots != [] {
      var p0 := Progress(s, r, false);
      BootstrapsRead(p0, boots, 0);
      BootstrapsKeep(m, p0, boots, 0);
      var q := Bootstraps(p0, boots, 0);
      if !q.returned {
        var started := q.(report := q.report.(succeeded := true));
        NothingBefore(m, started.session);
        DoneVersions(m, 0, started);
        ReadsTransitive(s, q.session, MigrateVersions(started, m, 0).session);
      }
    }
  }

  /**
   A further run without faults applies nothing, lists every required step as already complete,
   and between the lock statements sends only statements that write no row.
   */
  lemma {:induction false} FinishedRunChangesNothing(m: Manifest, boots: seq<BootstrapStep>, s: Session)
    requires Distinct(m) && Consistent(m, s.db) && AllDone(m, s.db, |m|) && Clear(m, s) && Bootable(boots, s.env)
    ensures var (t, r) := Run(s, m, boots);
      && r.succeeded && t.db == s.db
      && r.applied == [] && r.stepsApplied == 0 && r.pending == []
      && multiset(r.alreadyComplete) == multiset(Required(m))
      && r.versionsApplied == 0 && r.versionsAlreadyComplete == |m|
      && forall k :: |s.log| <= k < |t.log| ==> IsRead(t.log[k].stmt) || IsLockStatement(t.log[k].stmt)
  {
    RunConverges(m, boots, s);
    RunTally(s, m, boots);
    hide Send, RunLocked, Release, Consistent, ChecksHold, Bootable, Required, AllDone;
    AnsweredSend(s, GetLock);
    var s1 := Send(s, GetLock).0;
    LockedReads(m, boots, s1, InitialReport(m));
    var p := RunLocked(s1, InitialReport(m), m, boots);
    ReleaseSent(p.session);
    BracketedReads(s, s1, p.session, Release(p.session).0);
  }

  lemma ReleaseSent(s: Session)
    ensures var t := Release(s).0; |t.log| == |s.log| + 1 && s.log <= t.log && t.log[|s.log|].stmt == ReleaseLock
    ensures Release(s).0.db == s.db
  {
  }

  lemma BracketedReads(s: Session, s1: Session, s2: Session, t: Session)
    requires |s1.log| == |s.log| + 1 && s.log <= s1.log && s1.log[|s.log|].stmt == GetLock
    requires OnlyReads(s1, s2)
    requires |t.log| == |s2.log| + 1 && s2.log <= t.log && t.log[|s2.log|].stmt == ReleaseLock
    ensures forall k :: |s.log| <= k < |t.log| ==> IsRead(t.log[k].stmt) || IsLockStatement(t.log[k].stmt)
  {
    forall k | |s.log| <= k < |t.log| ensures IsRead(t.log[k].stmt) || IsLockStatement(t.log[k].stmt) {
      if k == |s.log| {
        assert t.log[k] == s2.log[k] == s1.log[k];
      } else if k < |s2.log| {
        assert t.log[k] == s2.log[k];
      }
    }
  }
}
