/** MigrationRunner and MigrationLock (migration.cpp:243-543), statement by statement. */
module MigrationRunners {
  import opened Wrappers
  import opened Sql
  import opened Migration
  import StatementScanner
  import opened Transactions

  class MigrationLock {
    const executor: SqlExecutor
    var held: bool

    constructor (executor: SqlExecutor)
      ensures this.executor == executor && !held
    {
      this.executor := executor;
      held := false;
    }

    method MarkHeld()
      modifies this
      ensures held
    {
      held := true;
    }

    /** Gives the lock up; a second call does nothing. */
    method GiveUp() returns (ok: bool)
      modifies this, executor
      ensures !held
      ensures if old(held) then (executor.session, ok) == Release(old(executor.session))
              else ok && executor.session == old(executor.session)
    {
      if !held {
        return true;
      }
      var holder := executor.session.locked;
      var released := executor.Execute(ReleaseLock);
      held := false;
      if !released || !holder {
        executor.MarkPoisoned();
        return false;
      }
      return true;
    }

    /** The destructor. */
    method Destroy()
      modifies this, executor
      ensures executor.session ==
        if old(held) then Release(old(executor.session)).0 else old(executor.session)
    {
      if held {
        var ok := GiveUp();
      }
    }
  }

  class MigrationRunner {
    const executor: SqlExecutor

    constructor (executor: SqlExecutor)
      ensures this.executor == executor
    {
      this.executor := executor;
    }

    method UpdateStepStatus(d: Definition, step: Step, status: Status) returns (ok: bool)
      modifies executor
      ensures (executor.session, ok) == WriteStepStatus(old(executor.session), d, step, status)
    {
      ok := executor.Execute(WriteStep(Key(d, step), RecordOf(step, status)));
    }

    method UpdateVersionStatus(d: Definition, status: Status) returns (ok: bool)
      modifies executor
      ensures (executor.session, ok) == WriteVersionStatus(old(executor.session), d, status)
    {
      ok := executor.Execute(WriteVersion(d.version, VersionRow(d.name, status)));
    }

    method Verified(d: Definition, step: Step, recovery: bool) returns (error: Option<Cause>)
      modifies executor
      ensures (executor.session, error) == VerifyStep(old(executor.session), d, step, recovery)
    {
      var answered := executor.Execute(Verify(Key(d, step), recovery));
      if !answered {
        return Some(VerificationUnanswered);
      }
      if !Holds(executor.session, Key(d, step), step.execution) {
        return Some(VerificationFalse);
      }
      return None;
    }

    method RemovePending(pending: seq<string>, id: string) returns (r: seq<string>)
      ensures r == Remove(pending, id)
    {
      r := [];
      for i := 0 to |pending|
        invariant r + Remove(pending[i..], id) == Remove(pending, id)
      {
        assert pending[i..][1..] == pending[i + 1..];
        if pending[i] != id {
          r := r + [pending[i]];
        }
      }
    }

    method Applied(d: Definition, step: Step) returns (error: Option<Cause>)
      modifies executor
      ensures (executor.session, error) == ApplyStep(old(executor.session), d, step)
    {
      hide Send, BeginOn, CommitOn, RollbackOn, VerifyStep;
      if step.execution.TransactionalDml? {
        var transaction := Transaction.Begin(executor);
        if transaction.None? {
          return Some(TransactionNotStarted);
        }
        var sent := executor.Execute(Apply(Key(d, step)));
        if !sent {
          transaction.value.DoRollback();
          return Some(StatementFailed);
        }
        error := Verified(d, step, false);
        if error.Some? {
          transaction.value.DoRollback();
          return error;
        }
        var committed := transaction.value.DoCommit();
        return if committed then None else Some(CommitUnknown);
      } else if step.execution.AtomicDdl? {
        var sent := executor.Execute(Apply(Key(d, step)));
        if !sent {
          return Some(StatementFailed);
        }
        error := Verified(d, step, false);
      } else {
        error := Verified(d, step, false);
      }
    }

    /** The body of the loop over the steps of a definition. */
    method Step(d: Definition, step: Step, rows: map<string, StepRow>, complete: bool, report: Report)
      returns (r: Report, returned: bool)
      modifies executor
      ensures Progress(executor.session, r, returned) ==
        MigrateStep(old(executor.session), report, d, step, rows, complete)
    {
      hide Send, ApplyStep, Remove;
      r := report;
      if step.phase.Cleanup? {
        return r, false;
      }
      if step.id in rows {
        var status := rows[step.id].status;
        if complete && status != SUCCEEDED {
          return Fail(r, step.id, IncompleteStepRecord), true;
        }
        if status == SUCCEEDED {
          var pending := RemovePending(r.pending, step.id);
          r := r.(alreadyComplete := r.alreadyComplete + [step.id], pending := pending);
          return r, false;
        }
        var unconfirmed := Verified(d, step, true);
        if unconfirmed.None? {
          var recorded := UpdateStepStatus(d, step, SUCCEEDED);
          if !recorded {
            return Fail(r, step.id, RecoveredUnrecorded), true;
          }
          var pending := RemovePending(r.pending, step.id);
          r := r.(stepsApplied := r.stepsApplied + 1, applied := r.applied + [step.id], pending := pending);
          return r, false;
        }
      } else if complete {
        return Fail(r, step.id, MissingStepRecord), true;
      }
      r, returned := Perform(d, step, r);
    }

    /** Lines 463-524 of the loop body. */
    method Perform(d: Definition, step: Step, report: Report) returns (r: Report, returned: bool)
      modifies executor
      ensures Progress(executor.session, r, returned) == ExecuteStep(old(executor.session), report, d, step)
    {
      hide Send, ApplyStep, Remove;
      r := report;
      var running := UpdateStepStatus(d, step, RUNNING);
      if !running {
        return Fail(r, step.id, StepRunningUnrecorded), true;
      }
      if step.execution.AtomicDdl? {
        r := r.(nonRollbackable := r.nonRollbackable + [step.id]);
      }
      var error := Applied(d, step);
      if error.Some? {
        var stepRecorded := UpdateStepStatus(d, step, FAILED);
        if !stepRecorded {
          executor.MarkPoisoned();
        }
        var versionRecorded := UpdateVersionStatus(d, FAILED);
        if !versionRecorded {
          executor.MarkPoisoned();
        }
        return Fail(r, step.id, StepFailed(error.value, !stepRecorded, !versionRecorded)), true;
      }
      var recorded := UpdateStepStatus(d, step, SUCCEEDED);
      if !recorded {
        executor.MarkPoisoned();
        return Fail(r, step.id, SuccessUnrecorded), true;
      }
      var pending := RemovePending(r.pending, step.id);
      r := r.(stepsApplied := r.stepsApplied + 1, applied := r.applied + [step.id], pending := pending);
      return r, false;
    }

    /** The comparison of the recorded rows with the manifest. */
    method RowsMatch(rows: map<string, StepRow>, d: Definition) returns (ok: bool)
      ensures ok == Matches(rows, d)
    {
      var ids := rows.Keys;
      while ids != {}
        invariant ids <= rows.Keys
        invariant forall id :: id in rows.Keys - ids ==>
          id in StepIds(d) && SameMetadata(rows[id], Current(d.steps, id))
        decreases ids
      {
        var id :| id in ids;
        if id !in StepIds(d) {
          return false;
        }
        if !SameMetadata(rows[id], Current(d.steps, id)) {
          return false;
        }
        ids := ids - {id};
      }
      return true;
    }

    /** The body of the loop over the definitions. */
    method Version(d: Definition, report: Report) returns (r: Report, returned: bool)
      modifies executor
      ensures Progress(executor.session, r, returned) == MigrateVersion(old(executor.session), report, d)
    {
      hide Send, MigrateSteps, Matches, RowsOf;
      r := report;
      var answered := executor.Execute(ReadVersion(d.version));
      if !answered {
        return Fail(r, "", VersionUnread), true;
      }
      var versions := View(executor.session).versions;
      var complete := false;
      if d.version in versions {
        if versions[d.version].name != d.name {
          return Fail(r, "", VersionRenamed), true;
        }
        complete := versions[d.version].status == SUCCEEDED;
      }
      r, returned := Rows(d, complete, r);
    }

    method Rows(d: Definition, complete: bool, report: Report) returns (r: Report, returned: bool)
      modifies executor
      ensures Progress(executor.session, r, returned) == MigrateRows(old(executor.session), report, d, complete)
    {
      hide Send, MigrateStep, Matches, RowsOf;
      r := report;
      var answered := executor.Execute(ReadSteps(d.version));
      if !answered {
        return Fail(r, "", ManifestUnread), true;
      }
      var rows := RowsOf(View(executor.session), d.version);
      var matching := RowsMatch(rows, d);
      if !matching {
        return Fail(r, "", ManifestDrift), true;
      }
      if !complete {
        var started := UpdateVersionStatus(d, RUNNING);
        if !started {
          return Fail(r, "", VersionRunningUnrecorded), true;
        }
      }
      ghost var p0 := Progress(executor.session, r, false);
      returned := false;
      var k := 0;
      while k < |d.steps| && !returned
        invariant 0 <= k <= |d.steps|
        invariant MigrateSteps(Progress(executor.session, r, returned), d, k, rows, complete) ==
          MigrateSteps(p0, d, 0, rows, complete)
      {
        r, returned := Step(d, d.steps[k], rows, complete, r);
        k := k + 1;
      }
      if returned {
        return;
      }
      if complete {
        r := r.(versionsAlreadyComplete := r.versionsAlreadyComplete + 1);
      } else {
        var recorded := UpdateVersionStatus(d, SUCCEEDED);
        if !recorded {
          executor.MarkPoisoned();
          return Fail(r, "", VersionUnrecorded), true;
        }
        r := r.(versionsApplied := r.versionsApplied + 1);
      }
    }

    /** What runs while the named lock is held. */
    method Locked(defs: seq<Definition>, boots: seq<BootstrapStep>, report: Report)
      returns (r: Report, returned: bool)
      modifies executor
      ensures Progress(executor.session, r, returned) == RunLocked(old(executor.session), report, defs, boots)
    {
      hide Send, MigrateVersion, StatementScanner.Accepts;
      r := report;
      if |boots| == 0 {
        return Fail(r, "", BootstrapMissing), true;
      }
      ghost var p0 := Progress(executor.session, r, false);
      var k := 0;
      while k < |boots|
        invariant 0 <= k <= |boots|
        invariant Bootstraps(Progress(executor.session, r, false), boots, k) == Bootstraps(p0, boots, 0)
      {
        var single := StatementScanner.IsSingleServerStatement(boots[k].applySql);
        if single {
          single := StatementScanner.IsSingleServerStatement(boots[k].verifySql);
        }
        if !single {
          return Fail(r, "", BootstrapMultipleStatements), true;
        }
        var created := executor.Execute(Bootstrap(boots[k].id));
        if !created {
          return Fail(r, "", MetadataTableFailed), true;
        }
        var verified := executor.Execute(VerifyBootstrap(boots[k].id));
        if !verified {
          return Fail(r, boots[k].id, MetadataUnverified), true;
        }
        if boots[k].id in executor.session.env.incompatible {
          return Fail(r, boots[k].id, MetadataIncompatible), true;
        }
        k := k + 1;
      }
      r := r.(succeeded := true);
      ghost var p1 := Progress(executor.session, r, false);
      returned := false;
      var i := 0;
      while i < |defs| && !returned
        invariant 0 <= i <= |defs|
        invariant MigrateVersions(Progress(executor.session, r, returned), defs, i) == MigrateVersions(p1, defs, 0)
      {
        r, returned := Version(defs[i], r);
        i := i + 1;
      }
    }

    method Run(defs: seq<Definition>, boots: seq<BootstrapStep>) returns (report: Report)
      modifies executor
      ensures (executor.session, report) == Migration.Run(old(executor.session), defs, boots)
    {
      hide Send, RunLocked, Release;
      report := InitialReport(defs);
      var lock := new MigrationLock(executor);
      var acquired := executor.Execute(GetLock);
      if !acquired {
        report := Fail(report, "", LockUnanswered);
        return;
      }
      if !executor.session.locked {
        report := Fail(report, "", LockNotAcquired);
        return;
      }
      lock.MarkHeld();
      var returned;
      report, returned := Locked(defs, boots, report);
      if returned {
        lock.Destroy();
        return;
      }
      var released := lock.GiveUp();
      if !released {
        report := Fail(report, "", ReleaseUnconfirmed);
      }
      lock.Destroy();
    }
  }
}
