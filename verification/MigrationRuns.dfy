/** Whole runs of the migration runner, and whole histories of interrupted runs. */
module MigrationRuns {
  import opened Wrappers
  import opened Sql
  import opened Migration
  import opened MigrationSteps
  import opened MigrationRecovery
  import opened MigrationReports
  import opened Transactions

  /** What a run leaves behind on the session it was given. */
  lemma {:induction false} RunKeeps(m: Manifest, boots: seq<BootstrapStep>, s: Session)
    requires Distinct(m) && Fit(s) && Consistent(m, s.db)
    ensures var (t, r) := Run(s, m, boots);
      && Consistent(m, t.db) && Advances(s.db, t.db) && (t.poisoned || Fit(t))
      && (Once(m, s.db) && Attended(t) ==> Once(m, t.db))
      && (r.succeeded ==> AllDone(m, t.db, |m|) && DoneBefore(m, t.db, |m|, 0) && !t.locked && !t.poisoned)
  {
    hide Send, RunLocked, Consistent;
    LockSends(s);
    var acquired := Send(s, GetLock);
    if acquired.1 && acquired.0.locked {
      var p := RunLocked(acquired.0, InitialReport(m), m, boots);
      LockedKeeps(m, acquired.0, InitialReport(m), boots);
      LockSends(p.session);
      LockedTally(acquired.0, m, boots);
      if Attended(Release(p.session).0) {
        ReleaseAttended(p.session);
      }
    }
  }

  lemma LockSends(s: Session)
    ensures var a := Send(s, GetLock);
      && a.0.db == s.db && a.0.txn == s.txn && (a.1 ==> !a.0.poisoned)
    ensures var r := Release(s);
      && r.0.db == s.db && (Idle(s) ==> Idle(r.0)) && (r.1 ==> !r.0.poisoned && !r.0.locked) && (!r.1 ==> r.0.poisoned)
  {
  }

  lemma ReleaseAttended(s: Session)
    requires Attended(Release(s).0)
    ensures Attended(s)
  {
    var t := Release(s).0;
    forall i | 0 <= i < |s.log| ensures !Blind(s.log[i]) {
      assert t.log[i] == s.log[i];
    }
  }

  // Histories.

  /** One start of the program: the bootstrap files it finds, its environment, and the fates of its statements. */
  datatype Attempt = Attempt(boots: seq<BootstrapStep>, env: Environment, fates: seq<Fate>)

  function SessionOf(m: Manifest, a: Attempt, db: Database): Session {
    Run(Open(db, a.fates, a.env), m, a.boots).0
  }

  /** The rows after a sequence of runs, each on a session of its own. */
  function After(m: Manifest, attempts: seq<Attempt>, db: Database): Database {
    if attempts == [] then db
    else After(m, attempts[1..], Close(SessionOf(m, attempts[0], db)))
  }

  ghost predicate AllAttended(m: Manifest, attempts: seq<Attempt>, db: Database) {
    attempts == [] ||
    (Attended(SessionOf(m, attempts[0], db)) &&
     AllAttended(m, attempts[1..], Close(SessionOf(m, attempts[0], db))))
  }

  lemma AdvancesTransitive(db: Database, db': Database, db'': Database)
    requires Advances(db, db') && Advances(db', db'')
    ensures Advances(db, db'')
  {
    forall v | VersionDone(db, v) ensures v in db''.versions && db''.versions[v] == db.versions[v] {
      assert VersionDone(db', v);
    }
    forall key | Succeeded(db, key) ensures key in db''.steps && db''.steps[key] == db.steps[key] {
      assert Succeeded(db', key);
    }
  }

  /**
   Every history: the records stay consistent with the manifest and with the effects, nothing
   recorded SUCCEEDED is taken back, and no apply statement takes effect twice.
   */
  lemma {:induction false} EveryHistory(m: Manifest, attempts: seq<Attempt>, db: Database)
    requires Distinct(m) && Consistent(m, db)
    ensures Consistent(m, After(m, attempts, db)) && Advances(db, After(m, attempts, db))
    ensures Once(m, db) && AllAttended(m, attempts, db) ==> Once(m, After(m, attempts, db))
    decreases |attempts|
  {
    if attempts != [] {
      hide Run, Consistent, Once, Advances;
      var a := attempts[0];
      RunKeeps(m, a.boots, Open(db, a.fates, a.env));
      EveryHistory(m, attempts[1..], Close(SessionOf(m, a, db)));
      AdvancesTransitive(db, Close(SessionOf(m, a, db)), After(m, attempts, db));
    } else {
      assert Advances(db, db);
    }
  }

  /** From empty tables: at most one effect per step, and none for Check and cleanup steps. */
  lemma {:induction false} AtMostOnce(m: Manifest, attempts: seq<Attempt>, i: int, j: int)
    requires Distinct(m) && AllAttended(m, attempts, EMPTY_DATABASE) && Valid(m, i, j)
    ensures var db, step := After(m, attempts, EMPTY_DATABASE), m[i].steps[j];
      && db.effects[KeyAt(m, i, j)] <= 1
      && (step.execution.Check? || step.phase.Cleanup? ==> db.effects[KeyAt(m, i, j)] == 0)
  {
    hide After, AllAttended;
    EmptyConsistent(m);
    EveryHistory(m, attempts, EMPTY_DATABASE);
    assert StepOk(m, After(m, attempts, EMPTY_DATABASE), i, j);
  }

  /** After a run that reports success every required step is recorded and its effect is there once. */
  lemma {:induction false} ExactlyOnceAfterSuccess(m: Manifest, attempts: seq<Attempt>, last: Attempt, i: int, j: int)
    requires Distinct(m) && IsRequired(m, i, j)
    requires AllAttended(m, attempts, EMPTY_DATABASE)
    requires var s := Open(After(m, attempts, EMPTY_DATABASE), last.fates, last.env);
      Run(s, m, last.boots).1.succeeded && Attended(Run(s, m, last.boots).0)
    ensures var db := Close(SessionOf(m, last, After(m, attempts, EMPTY_DATABASE)));
      && Succeeded(db, KeyAt(m, i, j))
      && db.effects[KeyAt(m, i, j)] == (if m[i].steps[j].execution.Check? then 0 else 1)
      && VersionDone(db, m[i].version)
  {
    hide After, AllAttended, Run;
    EmptyConsistent(m);
    EveryHistory(m, attempts, EMPTY_DATABASE);
    var s := Open(After(m, attempts, EMPTY_DATABASE), last.fates, last.env);
    RunKeeps(m, last.boots, s);
    var db := Run(s, m, last.boots).0.db;
    assert Earlier(i, j, |m|, 0);
    assert StepOk(m, db, i, j);
  }

  /** In every reachable state the SUCCEEDED steps form a prefix of the run order, under recorded versions. */
  lemma {:induction false} SucceededFormPrefix(m: Manifest, attempts: seq<Attempt>, i: int, j: int, i': int, j': int)
    requires Distinct(m) && IsRequired(m, i', j') && Valid(m, i, j) && Earlier(i', j', i, j)
    requires KeyAt(m, i, j) in After(m, attempts, EMPTY_DATABASE).steps
    ensures Succeeded(After(m, attempts, EMPTY_DATABASE), KeyAt(m, i', j'))
    ensures var versions := After(m, attempts, EMPTY_DATABASE).versions;
      m[i].version in versions && versions[m[i].version].name == m[i].name
  {
    hide After;
    EmptyConsistent(m);
    EveryHistory(m, attempts, EMPTY_DATABASE);
    assert VersionOk(m, After(m, attempts, EMPTY_DATABASE), i);
    assert StepOk(m, After(m, attempts, EMPTY_DATABASE), i, j);
  }

  /** A version marked SUCCEEDED has a matching SUCCEEDED record for each step that is not a cleanup. */
  lemma {:induction false} VersionRecordsComplete(m: Manifest, attempts: seq<Attempt>, i: int, j: int)
    requires Distinct(m) && IsRequired(m, i, j)
    requires VersionDone(After(m, attempts, EMPTY_DATABASE), m[i].version)
    ensures var db := After(m, attempts, EMPTY_DATABASE);
      KeyAt(m, i, j) in db.steps && db.steps[KeyAt(m, i, j)] == RecordOf(m[i].steps[j], SUCCEEDED)
  {
    hide After;
    EmptyConsistent(m);
    EveryHistory(m, attempts, EMPTY_DATABASE);
    var db := After(m, attempts, EMPTY_DATABASE);
    assert VersionOk(m, db, i);
    assert StepOk(m, db, i, j);
    assert Earlier(i, j, i, |m[i].steps|);
  }

  // The fates that matter.

  /** When the outcome of COMMIT is unknown the step stays RUNNING: the status write is refused. */
  lemma {:induction false} UnknownCommitStaysRunning(s: Session, r: Report, d: Definition, step: Step)
    requires Fit(s) && r.reason == NoFailure
    requires ExecuteStep(s, r, d, step).report.reason.StepFailed?
    requires ExecuteStep(s, r, d, step).report.reason.cause == CommitUnknown
    ensures var p := ExecuteStep(s, r, d, step);
      && p.session.poisoned && p.returned
      && Key(d, step) in p.session.db.steps
      && p.session.db.steps[Key(d, step)].status == RUNNING
      && p.report.reason == StepFailed(CommitUnknown, true, true)
  {
    hide Send, ApplyStep;
    var key := Key(d, step);
    SendAlone(s, WriteStep(key, RecordOf(step, RUNNING)));
    var running := WriteStepStatus(s, d, step, RUNNING);
    if running.1 {
      ApplyOutcome(running.0, d, step);
      CommitUnknownPoisons(running.0, d, step);
    }
  }

  /**
   A DML step is all or nothing: unless its COMMIT has an unknown outcome, its apply statement has taken
   effect exactly when the step reports no cause, and whatever failed, no transaction is left
   open on a connection that stays usable. A DDL step has no such protection.
   */
  lemma {:induction false} DmlAllOrNothing(s: Session, d: Definition, step: Step)
    requires Fit(s) && step.execution.TransactionalDml?
    ensures var (t, cause) := ApplyStep(s, d, step); var key := Key(d, step);
      && (cause.None? ==> t.db.effects == Counted(s.db, key) && Fit(t))
      && (cause.Some? && cause != Some(CommitUnknown) ==> t.db == s.db)
      && (cause == Some(CommitUnknown) ==> t.poisoned && (t.db == s.db || t.db.effects == Counted(s.db, key)))
      && (t.poisoned || t.txn.None?)
  {
    hide Send, BeginOn, CommitOn, RollbackOn;
    BeginOutcome(s);
    var begun := BeginOn(s).0;
    if BeginOn(s).1 {
      ApplyEffect(s.db, Key(d, step));
      SendInside(begun, Apply(Key(d, step)));
      var sent := Send(begun, Apply(Key(d, step)));
      EndOutcome(sent.0);
      EndedIdle(sent.0);
      if sent.1 {
        var verified := VerifyStep(sent.0, d, step, false).0;
        SendInside(sent.0, Verify(Key(d, step), false));
        EndOutcome(verified);
        EndedIdle(verified);
      }
    }
  }

  lemma EndedIdle(s: Session)
    ensures !CommitOn(s).1 ==> CommitOn(s).0.poisoned
  {
  }

  lemma CommitUnknownPoisons(s: Session, d: Definition, step: Step)
    requires ApplyStep(s, d, step).1 == Some(CommitUnknown)
    ensures ApplyStep(s, d, step).0.poisoned
  {
    hide Send;
  }

  /**
   The one case that can repeat an effect. A step with its effect present but not recorded is
   verified first; if all later statements are answered, its effect is repeated exactly when that
   verify fails on a connection that stays usable.
   */
  lemma {:induction false} RepeatedExactlyWhenBlind(s: Session, r: Report, d: Definition, step: Step)
    requires Fit(s) && !step.execution.Check? && s.db.effects[Key(d, step)] > 0
    requires Key(d, step) in s.db.steps && MetadataKept(s.db, d, step) && !Succeeded(s.db, Key(d, step))
    requires forall k :: 1 <= k < |s.fates| ==> !s.fates[k].Failed?
    ensures var key, p := Key(d, step), RecoverStep(s, r, d, step);
      var blind := Blind(Event(Verify(key, true), NextFate(s)));
      && (p.session.db.effects[key] == s.db.effects[key] <==> !blind)
      && (p.session.db.effects[key] == s.db.effects[key] + 1 <==> blind)
  {
    hide Send, ExecuteStep;
    var key := Key(d, step);
    var checked := VerifyStep(s, d, step, true);
    RecheckOutcome(s, d, step);
    if checked.0.poisoned {
      ExecuteFrame(checked.0, r, d, step);
    } else if checked.1.Some? {
      AnsweredExecution(checked.0, r, d, step);
    } else {
      SendAlone(checked.0, WriteStep(key, RecordOf(step, SUCCEEDED)));
    }
  }

  /** The recovery verify of a step whose effect is present. */
  lemma RecheckOutcome(s: Session, d: Definition, step: Step)
    requires Fit(s) && !step.execution.Check? && s.db.effects[Key(d, step)] > 0
    requires forall k :: 1 <= k < |s.fates| ==> !s.fates[k].Failed?
    ensures var checked := VerifyStep(s, d, step, true);
      var blind := Blind(Event(Verify(Key(d, step), true), NextFate(s)));
      && checked.0.db == s.db
      && (checked.1.Some? && !checked.0.poisoned <==> blind)
      && (checked.0.poisoned ==> checked.1.Some?)
      && (!checked.0.poisoned ==> Faultless(checked.0) && Fit(checked.0))
  {
    if !VerifyStep(s, d, step, true).0.poisoned {
      RestFaultless(s, d, step);
    }
  }

  lemma RestFaultless(s: Session, d: Definition, step: Step)
    requires Fit(s) && !VerifyStep(s, d, step, true).0.poisoned
    requires forall k :: 1 <= k < |s.fates| ==> !s.fates[k].Failed?
    ensures Faultless(VerifyStep(s, d, step, true).0) && VerifyStep(s, d, step, true).0.txn.None?
  {
    var t := VerifyStep(s, d, step, true).0;
    forall f | f in t.fates ensures !f.Failed? {
    }
  }

  /** An answered data statement. */
  lemma AnsweredData(s: Session, stmt: Statement)
    requires Faultless(s) && IsData(stmt)
    ensures var r := Send(s, stmt);
      && r.1 && Faultless(r.0)
      && r.0 == Written(s, Perform(View(s), stmt)).(fates := r.0.fates, log := r.0.log)
  {
    AnsweredSend(s, stmt);
  }

  /** With every statement answered an apply takes effect exactly once and is confirmed. */
  lemma AnsweredApply(s: Session, d: Definition, step: Step)
    requires Faultless(s) && s.txn.None?
    requires step.execution.Check? ==> Key(d, step) in s.env.checks
    ensures var r := ApplyStep(s, d, step);
      && r.1.None? && Faultless(r.0) && Fit(r.0) && r.0.env == s.env
      && r.0.db == if step.execution.Check? then s.db else Perform(s.db, Apply(Key(d, step)))
  {
    hide Send, Perform, Effect;
    var apply, verify := Apply(Key(d, step)), Verify(Key(d, step), false);
    ApplyEffect(s.db, Key(d, step));
    match step.execution
    case Check => AnsweredRead(s, d, step);
    case AtomicDdl =>
      AnsweredData(s, apply);
      AnsweredRead(Send(s, apply).0, d, step);
    case TransactionalDml =>
      AnsweredBegin(s);
      AnsweredBody(BeginOn(s).0, d, step);
  }

  lemma AnsweredBody(s: Session, d: Definition, step: Step)
    requires Faultless(s) && s.txn == Some(s.db) && step.execution.TransactionalDml?
    ensures var r := DmlBody(s, d, step);
      && r.1.None? && Faultless(r.0) && Fit(r.0) && r.0.env == s.env
      && r.0.db == Perform(s.db, Apply(Key(d, step)))
  {
    hide Send, Perform;
    var apply, verify := Apply(Key(d, step)), Verify(Key(d, step), false);
    ApplyEffect(s.db, Key(d, step));
    AnsweredData(s, apply);
    var s1 := Send(s, apply).0;
    AnsweredRead(s1, d, step);
    AnsweredSend(Send(s1, verify).0, Commit);
  }

  lemma AnsweredRead(s: Session, d: Definition, step: Step)
    requires Faultless(s)
    ensures var r := Send(s, Verify(Key(d, step), false));
      && r.1 && Faultless(r.0) && r.0 == s.(fates := r.0.fates, log := r.0.log)
  {
  }

  lemma AnsweredExecution(s: Session, r: Report, d: Definition, step: Step)
    requires Faultless(s) && s.txn.None? && MetadataKept(s.db, d, step)
    requires step.execution.Check? ==> Key(d, step) in s.env.checks
    ensures var p := ExecuteStep(s, r, d, step);
      && !p.returned && Faultless(p.session) && Fit(p.session) && p.session.env == s.env
      && p.session.db.effects == if step.execution.Check? then s.db.effects else Counted(s.db, Key(d, step))
  {
    hide Send, ApplyStep;
    var key := Key(d, step);
    AnsweredSend(s, WriteStep(key, RecordOf(step, RUNNING)));
    var s1 := WriteStepStatus(s, d, step, RUNNING).0;
    AnsweredApply(s1, d, step);
    AnsweredSend(ApplyStep(s1, d, step).0, WriteStep(key, RecordOf(step, SUCCEEDED)));
  }
}
