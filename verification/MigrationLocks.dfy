/** The named lock (migration.cpp:243-267, 344-352, 537-542) over every exit path of a run. */
module MigrationLocks {
  import opened Sql
  import opened Migration
  import StatementScanner
  import opened MigrationSteps
  import MigrationReports

  lemma {:induction false} StepsFrame(p: Progress, d: Definition, k: nat, rows: map<string, StepRow>, complete: bool)
    requires k <= |d.steps|
    ensures Frame(p.session, MigrateSteps(p, d, k, rows, complete).session)
    decreases |d.steps| - k
  {
    PoisonFrame(p.session);
    hide MigrateStep, Frame;
    if !p.returned && k < |d.steps| {
      var next := MigrateStep(p.session, p.report, d, d.steps[k], rows, complete);
      StepFrame(p.session, p.report, d, d.steps[k], rows, complete);
      StepsFrame(next, d, k + 1, rows, complete);
      FrameTransitive(p.session, next.session, MigrateSteps(next, d, k + 1, rows, complete).session);
    }
  }

  lemma FinishFrame(p: Progress, d: Definition, complete: bool)
    ensures Frame(p.session, FinishVersion(p, d, complete).session)
  {
    PoisonFrame(p.session);
    hide Send, Frame;
    SendFrame(p.session, WriteVersion(d.version, VersionRow(d.name, SUCCEEDED)));
    var done := WriteVersionStatus(p.session, d, SUCCEEDED).0;
    PoisonFrame(done);
    FrameTransitive(p.session, done, Poison(done));
  }

  lemma RowsFrame(s: Session, r: Report, d: Definition, complete: bool)
    ensures Frame(s, MigrateRows(s, r, d, complete).session)
  {
    hide Send, MigrateSteps, RowsOf, Matches, Frame;
    SendFrame(s, ReadSteps(d.version));
    var listed := Send(s, ReadSteps(d.version));
    if listed.1 {
      PoisonFrame(listed.0);
      var rows := RowsOf(View(listed.0), d.version);
      SendFrame(listed.0, WriteVersion(d.version, VersionRow(d.name, RUNNING)));
      var started := if complete then (listed.0, true) else WriteVersionStatus(listed.0, d, RUNNING);
      FrameTransitive(s, listed.0, started.0);
      var p0 := Progress(started.0, r, false);
      var q := MigrateSteps(p0, d, 0, rows, complete);
      StepsFrame(p0, d, 0, rows, complete);
      FrameTransitive(s, started.0, q.session);
      FinishFrame(q, d, complete);
      FrameTransitive(s, q.session, FinishVersion(q, d, complete).session);
    }
  }

  lemma VersionFrame(s: Session, r: Report, d: Definition)
    ensures Frame(s, MigrateVersion(s, r, d).session)
  {
    hide Send, MigrateRows, Frame;
    SendFrame(s, ReadVersion(d.version));
    var read := Send(s, ReadVersion(d.version));
    var versions := View(read.0).versions;
    var complete := d.version in versions && versions[d.version].status == SUCCEEDED;
    RowsFrame(read.0, r, d, complete);
    FrameTransitive(s, read.0, MigrateRows(read.0, r, d, complete).session);
  }

  lemma {:induction false} VersionsFrame(p: Progress, defs: seq<Definition>, k: nat)
    requires k <= |defs|
    ensures Frame(p.session, MigrateVersions(p, defs, k).session)
    decreases |defs| - k
  {
    PoisonFrame(p.session);
    hide MigrateVersion, Frame;
    if !p.returned && k < |defs| {
      var next := MigrateVersion(p.session, p.report, defs[k]);
      VersionFrame(p.session, p.report, defs[k]);
      VersionsFrame(next, defs, k + 1);
      FrameTransitive(p.session, next.session, MigrateVersions(next, defs, k + 1).session);
    }
  }

  lemma BootstrapFrame(s: Session, id: string)
    ensures
      var created := Send(s, Bootstrap(id)).0;
      Frame(s, created) && Frame(s, Send(created, VerifyBootstrap(id)).0)
  {
    hide Send, Frame;
    SendFrame(s, Bootstrap(id));
    var created := Send(s, Bootstrap(id)).0;
    SendFrame(created, VerifyBootstrap(id));
    FrameTransitive(s, created, Send(created, VerifyBootstrap(id)).0);
  }

  lemma {:induction false} BootstrapsFrame(p: Progress, boots: seq<BootstrapStep>, k: nat)
    requires k <= |boots|
    ensures Frame(p.session, Bootstraps(p, boots, k).session)
    decreases |boots| - k
  {
    PoisonFrame(p.session);
    hide StatementScanner.Accepts, Send, Frame;
    if !p.returned && k < |boots| {
      var id := boots[k].id;
      BootstrapFrame(p.session, id);
      var verified := Send(Send(p.session, Bootstrap(id)).0, VerifyBootstrap(id)).0;
      var next := Progress(verified, p.report, false);
      BootstrapsFrame(next, boots, k + 1);
      FrameTransitive(p.session, verified, Bootstraps(next, boots, k + 1).session);
    }
  }

  lemma LockedFrame(s: Session, r: Report, defs: seq<Definition>, boots: seq<BootstrapStep>)
    ensures Frame(s, RunLocked(s, r, defs, boots).session)
  {
    hide Bootstraps, MigrateVersions;
    if boots != [] {
      var p0 := Progress(s, r, false);
      var p := Bootstraps(p0, boots, 0);
      BootstrapsFrame(p0, boots, 0);
      var started := p.(report := p.report.(succeeded := true));
      VersionsFrame(started, defs, 0);
      FrameTransitive(s, p.session, MigrateVersions(started, defs, 0).session);
    }
  }

  /** The server confirmed that this session holds the lock. */
  predicate Confirmed(s: Session) {
    Send(s, GetLock).1 && Send(s, GetLock).0.locked
  }

  /**
   After a confirmed GET_LOCK the run ends with RELEASE_LOCK, its only one, and then the lock is
   free or the connection is poisoned. Success is never reported with the release unconfirmed.
   Without a confirmation nothing else is sent.
   */
  lemma {:induction false} LockBracket(s: Session, defs: seq<Definition>, boots: seq<BootstrapStep>)
    requires !s.poisoned
    ensures var (t, r) := Run(s, defs, boots);
      && s.log < t.log && t.log[|s.log|].stmt == GetLock
      && (if Confirmed(s) then
            && |t.log| >= |s.log| + 2 && t.log[|t.log| - 1].stmt == ReleaseLock
            && (forall k :: |s.log| < k < |t.log| - 1 ==> !IsLockStatement(t.log[k].stmt))
            && (!t.locked || t.poisoned)
          else |t.log| == |s.log| + 1 && !r.succeeded)
      && (r.succeeded ==> !t.locked && !t.poisoned && t.log[|t.log| - 1].fate == Answered)
  {
    hide Send, RunLocked, Release;
    if Confirmed(s) {
      var s1 := Send(s, GetLock).0;
      LockedFrame(s1, InitialReport(defs), defs, boots);
      var p := RunLocked(s1, InitialReport(defs), defs, boots);
      ReleaseEvent(p.session);
      MiddleOfLog(s, s1, p.session, Release(p.session).0);
      MigrationReports.LockedTally(s1, defs, boots);
    }
  }

  lemma MiddleOfLog(s: Session, s1: Session, u: Session, t: Session)
    requires s1.log == s.log + [Event(GetLock, NextFate(s))]
    requires Frame(s1, u) && t.log == u.log + [Event(ReleaseLock, NextFate(u))]
    ensures |t.log| >= |s.log| + 2 && s.log < t.log
    ensures t.log[|s.log|].stmt == GetLock && t.log[|t.log| - 1] == Event(ReleaseLock, NextFate(u))
    ensures forall k :: |s.log| < k < |t.log| - 1 ==> !IsLockStatement(t.log[k].stmt)
  {
    assert u.log[|s.log|] == s1.log[|s.log|];
    forall k | |s.log| < k < |t.log| - 1 ensures !IsLockStatement(t.log[k].stmt) {
      assert t.log[k] == u.log[k];
    }
  }

  lemma ReleaseEvent(u: Session)
    ensures var t := Release(u);
      && t.0.log == u.log + [Event(ReleaseLock, NextFate(u))]
      && (!t.0.locked || t.0.poisoned)
      && (t.1 ==> !t.0.locked && !t.0.poisoned && NextFate(u) == Answered)
  {
  }

  /**
   The lock outlives a run on a connection that goes back to the pool in one case only: GET_LOCK
   took effect, its reply was lost, and the loss did not poison the connection.
   */
  lemma {:induction false} LockLeftHeldExactly(s: Session, defs: seq<Definition>, boots: seq<BootstrapStep>)
    requires !s.poisoned && !s.locked
    ensures var t := Run(s, defs, boots).0;
      t.locked && !t.poisoned <==> NextFate(s) == Failed(true, false) && !s.env.lockTaken
  {
    if Confirmed(s) {
      hide Run;
      LockBracket(s, defs, boots);
    }
  }
}
