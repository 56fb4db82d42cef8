/**
 What the message of a failed run says (migration.cpp:331-543): each reason, the step named with it
 and the flags it carries tell which statement went wrong, or which recorded row was refused.
 */
module MigrationMessages {
  import opened Wrappers
  import opened Sql
  import opened Traces
  import opened Transactions
  import opened Migration
  import StatementScanner
  import opened MigrationSteps
  import opened MigrationRecovery
  import opened MigrationConvergence
  import MigrationLocks
  import MigrationReports

  /** The statements on step `key` end, before the last two, in the way that `cause` tells. */
  predicate Caused(log: seq<Event>, key: StepKey, cause: Cause) {
    match cause
    case TransactionNotStarted => Said(log, 3, SetIsolation, false) || Said(log, 3, Start, false)
    case StatementFailed => UndoneOr(log, Apply(key), false)
    case VerificationUnanswered => UndoneOr(log, Verify(key, false), false)
    case VerificationFalse => UndoneOr(log, Verify(key, false), true)
    case CommitUnknown => Said(log, 3, Commit, false)
  }

  /** `stmt` went last, or was followed by ROLLBACK only. */
  predicate UndoneOr(log: seq<Event>, stmt: Statement, answered: bool) {
    Said(log, 3, stmt, answered) || (Said(log, 4, stmt, answered) && 3 <= |log| && log[|log| - 3].stmt == Rollback)
  }

  ghost predicate Refuses(m: Manifest, boots: seq<BootstrapStep>, t: Session, step: string, reason: Reason) {
    var db := View(t);
    match reason
    case BootstrapMissing => boots == [] && step == ""
    case BootstrapMultipleStatements =>
      step == "" &&
      exists b :: b in boots && !(StatementScanner.Accepts(b.applySql) && StatementScanner.Accepts(b.verifySql))
    case MetadataIncompatible => Said(t.log, 1, VerifyBootstrap(step), true) && step in t.env.incompatible
    case VersionRenamed =>
      step == "" &&
      exists d :: d in m && Said(t.log, 1, ReadVersion(d.version), true) &&
        d.version in db.versions && db.versions[d.version].name != d.name
    case ManifestDrift =>
      step == "" &&
      exists d :: d in m && Said(t.log, 1, ReadSteps(d.version), true) && !Matches(RowsOf(db, d.version), d)
    case IncompleteStepRecord =>
      exists d :: d in m && Said(t.log, 1, ReadSteps(d.version), true) && VersionDone(db, d.version) &&
        Demands(d, step) && StepKey(d.version, step) in db.steps && !Succeeded(db, StepKey(d.version, step))
    case MissingStepRecord =>
      exists d :: d in m && Said(t.log, 1, ReadSteps(d.version), true) && VersionDone(db, d.version) &&
        Demands(d, step) && StepKey(d.version, step) !in db.steps
    case _ => false
  }

  /** The definition has a step of that id which is no cleanup. */
  predicate Demands(d: Definition, id: string) {
    exists step :: step in d.steps && step.id == id && !step.phase.Cleanup?
  }

  ghost predicate Breaks(m: Manifest, t: Session, step: string, reason: Reason) {
    var log := t.log;
    match reason
    case MetadataTableFailed => step == "" && log != [] && Said(log, 1, log[|log| - 1].stmt, false) &&
      log[|log| - 1].stmt.Bootstrap?
    case MetadataUnverified => Said(log, 1, VerifyBootstrap(step), false)
    case VersionUnread => step == "" && exists d :: d in m && Said(log, 1, ReadVersion(d.version), false)
    case ManifestUnread => step == "" && exists d :: d in m && Said(log, 1, ReadSteps(d.version), false)
    case VersionRunningUnrecorded =>
      step == "" && exists d :: d in m && Said(log, 1, WriteVersion(d.version, VersionRow(d.name, RUNNING)), false)
    case VersionUnrecorded =>
      step == "" && t.poisoned &&
      exists d :: d in m && Said(log, 1, WriteVersion(d.version, VersionRow(d.name, SUCCEEDED)), false)
    case StepRunningUnrecorded => exists d, x :: Has(m, d, x, step) && Said(log, 1, Record(d, x, RUNNING), false)
    case RecoveredUnrecorded =>
      exists d, x :: Has(m, d, x, step) && Said(log, 1, Record(d, x, SUCCEEDED), false) &&
        Said(log, 2, Verify(Key(d, x), true), true)
    case SuccessUnrecorded =>
      t.poisoned &&
      exists d, x :: Has(m, d, x, step) && Said(log, 1, Record(d, x, SUCCEEDED), false) &&
        (Said(log, 2, Commit, true) || Said(log, 2, Verify(Key(d, x), false), true))
    case StepFailed(cause, stepUnrecorded, versionUnrecorded) =>
      (stepUnrecorded || versionUnrecorded ==> t.poisoned) &&
      exists d, x :: Has(m, d, x, step) && Caused(log, Key(d, x), cause) &&
        Said(log, 2, Record(d, x, FAILED), !stepUnrecorded) &&
        Said(log, 1, WriteVersion(d.version, VersionRow(d.name, FAILED)), !versionUnrecorded)
    case _ => false
  }

  predicate Has(m: Manifest, d: Definition, x: Step, id: string) {
    d in m && x in d.steps && x.id == id
  }

  function Record(d: Definition, x: Step, status: Status): Statement {
    WriteStep(Key(d, x), RecordOf(x, status))
  }

  /** The message of a run that has returned is true. */
  ghost predicate Explained(m: Manifest, boots: seq<BootstrapStep>, p: Progress) {
    Refuses(m, boots, p.session, p.report.failedStep, p.report.reason) ||
    Breaks(m, p.session, p.report.failedStep, p.report.reason)
  }

  predicate Silent(r: Report) {
    r.failedStep == "" && r.reason == NoFailure
  }

  /** Either the run goes on without a message, or it has returned with a true one. */
  ghost predicate Tells(m: Manifest, boots: seq<BootstrapStep>, p: Progress) {
    if p.returned then Explained(m, boots, p) else Silent(p.report)
  }

  // ---- One step ----

  /** What the session says of a cause, before anything is recorded. */
  predicate Early(log: seq<Event>, key: StepKey, cause: Cause) {
    match cause
    case TransactionNotStarted => Said(log, 1, SetIsolation, false) || Said(log, 1, Start, false)
    case StatementFailed => EarlyOr(log, Apply(key), false)
    case VerificationUnanswered => EarlyOr(log, Verify(key, false), false)
    case VerificationFalse => EarlyOr(log, Verify(key, false), true)
    case CommitUnknown => Said(log, 1, Commit, false)
  }

  predicate EarlyOr(log: seq<Event>, stmt: Statement, answered: bool) {
    Said(log, 1, stmt, answered) || (Said(log, 2, stmt, answered) && log[|log| - 1].stmt == Rollback)
  }

  lemma VerifySaid(s: Session, d: Definition, x: Step, recovery: bool)
    ensures
      var v := VerifyStep(s, d, x, recovery);
      Said(v.0.log, 1, Verify(Key(d, x), recovery), v.1 != Some(VerificationUnanswered)) &&
      (v.1.Some? ==> v.1.value.VerificationUnanswered? || v.1.value.VerificationFalse?)
  {
    hide Send;
    SentSaid(s, Verify(Key(d, x), recovery));
  }

  lemma UndoneEarly(s: Session, stmt: Statement, answered: bool)
    requires Said(s.log, 1, stmt, answered)
    ensures EarlyOr(RollbackOn(s).log, stmt, answered)
  {
    hide Send;
    SentSaid(s, Rollback);
  }

  lemma ApplyTold(s: Session, d: Definition, x: Step)
    ensures
      var o := ApplyStep(s, d, x);
      if o.1.Some? then Early(o.0.log, Key(d, x), o.1.value)
      else Said(o.0.log, 1, Commit, true) || Said(o.0.log, 1, Verify(Key(d, x), false), true)
  {
    hide Send, VerifyStep, RollbackOn, Said;
    var apply := Apply(Key(d, x));
    match x.execution
    case Check => VerifySaid(s, d, x, false);
    case AtomicDdl =>
      SentSaid(s, apply);
      VerifySaid(Send(s, apply).0, d, x, false);
    case TransactionalDml =>
      BeginTold(s);
      if BeginOn(s).1 {
        DmlTold(BeginOn(s).0, d, x);
      }
  }

  lemma BeginTold(s: Session)
    ensures !BeginOn(s).1 ==> Said(BeginOn(s).0.log, 1, SetIsolation, false) || Said(BeginOn(s).0.log, 1, Start, false)
  {
    hide Send;
    SentSaid(s, SetIsolation);
    SentSaid(Send(s, SetIsolation).0, Start);
  }

  lemma DmlTold(s: Session, d: Definition, x: Step)
    ensures
      var o := DmlBody(s, d, x);
      if o.1.Some? then Early(o.0.log, Key(d, x), o.1.value) else Said(o.0.log, 1, Commit, true)
  {
    hide Send, VerifyStep, RollbackOn, Said;
    var apply := Apply(Key(d, x));
    SentSaid(s, apply);
    var sent := Send(s, apply);
    if !sent.1 {
      UndoneEarly(sent.0, apply, false);
    } else {
      var v := VerifyStep(sent.0, d, x, false);
      VerifySaid(sent.0, d, x, false);
      if v.1.Some? {
        UndoneEarly(v.0, Verify(Key(d, x), false), v.1 != Some(VerificationUnanswered));
      } else {
        SentSaid(v.0, Commit);
      }
    }
  }

  /** Two statements later. */
  lemma Later(log: seq<Event>, key: StepKey, cause: Cause, log': seq<Event>)
    requires Early(log, key, cause) && |log'| == |log| + 2 && log <= log'
    ensures Caused(log', key, cause)
  {
    assert forall n: nat, stmt, answered :: Said(log, n, stmt, answered) ==> Said(log', n + 2, stmt, answered);
  }

  lemma FailureTold(m: Manifest, boots: seq<BootstrapStep>, s: Session, r: Report, d: Definition, x: Step, cause: Cause)
    requires d in m && x in d.steps && Early(s.log, Key(d, x), cause)
    ensures
      var p := RecordFailure(s, r, d, x, cause);
      p.returned && Explained(m, boots, p)
  {
    hide Send, Early, Caused;
    var step, version := Record(d, x, FAILED), WriteVersion(d.version, VersionRow(d.name, FAILED));
    var w1 := Send(s, step);
    SentSaid(s, step);
    var s1 := if w1.1 then w1.0 else Poison(w1.0);
    var w2 := Send(s1, version);
    SentSaid(s1, version);
    Later(s.log, Key(d, x), cause, w2.0.log);
    StaysPoisoned(s1, version);
    var p := RecordFailure(s, r, d, x, cause);
    assert Has(m, d, x, p.report.failedStep);
    assert Said(p.session.log, 2, Record(d, x, FAILED), w1.1);
  }

  lemma StaysPoisoned(s: Session, stmt: Statement)
    ensures s.poisoned ==> Send(s, stmt).0.poisoned
  {
    hide Perform;
  }

  lemma ExecuteTold(m: Manifest, boots: seq<BootstrapStep>, s: Session, r: Report, d: Definition, x: Step)
    requires d in m && x in d.steps && Silent(r)
    ensures Tells(m, boots, ExecuteStep(s, r, d, x))
  {
    hide Send, ApplyStep, Early, Said, Remove, RecordFailure;
    var p := ExecuteStep(s, r, d, x);
    SentSaid(s, Record(d, x, RUNNING));
    var running := WriteStepStatus(s, d, x, RUNNING);
    assert Has(m, d, x, x.id);
    if running.1 {
      ApplyTold(running.0, d, x);
      var o := ApplyStep(running.0, d, x);
      if o.1.Some? {
        FailureTold(m, boots, o.0, NonRollbackable(r, x), d, x, o.1.value);
      } else {
        SentSaid(o.0, Record(d, x, SUCCEEDED));
      }
    }
  }

  lemma RecoverTold(m: Manifest, boots: seq<BootstrapStep>, s: Session, r: Report, d: Definition, x: Step)
    requires d in m && x in d.steps && Silent(r)
    ensures Tells(m, boots, RecoverStep(s, r, d, x))
  {
    hide Send, ExecuteStep, Said, Remove;
    VerifySaid(s, d, x, true);
    var v := VerifyStep(s, d, x, true);
    assert Has(m, d, x, x.id);
    if v.1.None? {
      SentSaid(v.0, Record(d, x, SUCCEEDED));
    } else {
      ExecuteTold(m, boots, v.0, r, d, x);
    }
  }

  /** Before a step of a version marked SUCCEEDED nothing has been sent since its rows were read. */
  predicate JustRead(s: Session, d: Definition, rows: map<string, StepRow>) {
    Said(s.log, 1, ReadSteps(d.version), true) && VersionDone(View(s), d.version) && rows == RowsOf(View(s), d.version)
  }

  lemma StepTold(m: Manifest, boots: seq<BootstrapStep>, s: Session, r: Report, d: Definition, x: Step,
                 rows: map<string, StepRow>, complete: bool)
    requires d in m && x in d.steps && Silent(r) && (complete ==> JustRead(s, d, rows))
    ensures
      var p := MigrateStep(s, r, d, x, rows, complete);
      Tells(m, boots, p) && (complete && !p.returned ==> p.session == s)
  {
    hide ExecuteStep, RecoverStep, Said, Remove, RowsOf;
    ExecuteTold(m, boots, s, r, d, x);
    RecoverTold(m, boots, s, r, d, x);
    if complete && !x.phase.Cleanup? {
      RowRead(s, d, x.id, rows);
      assert Demands(d, x.id);
    }
  }

  lemma RowRead(s: Session, d: Definition, id: string, rows: map<string, StepRow>)
    requires JustRead(s, d, rows)
    ensures
      var key, db := StepKey(d.version, id), View(s);
      (id in rows <==> key in db.steps) && (id in rows ==> rows[id] == db.steps[key])
  {
    assert StepKey(d.version, id).id == id;
  }

  // ---- Versions and runs ----

  lemma {:induction false} StepsTold(m: Manifest, boots: seq<BootstrapStep>, p: Progress, d: Definition, k: nat,
                                     rows: map<string, StepRow>, complete: bool)
    requires d in m && k <= |d.steps| && Tells(m, boots, p)
    requires complete && !p.returned ==> JustRead(p.session, d, rows)
    ensures Tells(m, boots, MigrateSteps(p, d, k, rows, complete))
    decreases |d.steps| - k
  {
    hide MigrateStep, Explained, JustRead;
    if !p.returned && k < |d.steps| {
      StepTold(m, boots, p.session, p.report, d, d.steps[k], rows, complete);
      StepsTold(m, boots, MigrateStep(p.session, p.report, d, d.steps[k], rows, complete), d, k + 1, rows, complete);
    }
  }

  lemma FinishTold(m: Manifest, boots: seq<BootstrapStep>, p: Progress, d: Definition, complete: bool)
    requires d in m && Tells(m, boots, p)
    ensures Tells(m, boots, FinishVersion(p, d, complete))
  {
    hide Send, Said;
    SentSaid(p.session, WriteVersion(d.version, VersionRow(d.name, SUCCEEDED)));
  }

  lemma ReadAnswered(s: Session, stmt: Statement)
    requires stmt.ReadVersion? || stmt.ReadSteps?
    ensures View(Send(s, stmt).0) == View(s)
  {
  }

  lemma RowsTold(m: Manifest, boots: seq<BootstrapStep>, s: Session, r: Report, d: Definition, complete: bool)
    requires d in m && Silent(r) && (complete ==> VersionDone(View(s), d.version))
    ensures Tells(m, boots, MigrateRows(s, r, d, complete))
  {
    hide Send, MigrateSteps, RowsOf, Matches, Said, FinishVersion;
    var listed := Send(s, ReadSteps(d.version));
    SentSaid(s, ReadSteps(d.version));
    ReadAnswered(s, ReadSteps(d.version));
    var rows := RowsOf(View(listed.0), d.version);
    SentSaid(listed.0, WriteVersion(d.version, VersionRow(d.name, RUNNING)));
    var started := if complete then (listed.0, true) else WriteVersionStatus(listed.0, d, RUNNING);
    if listed.1 && Matches(rows, d) && started.1 {
      StartedTold(m, boots, Progress(started.0, r, false), d, rows, complete);
    }
  }

  lemma StartedTold(m: Manifest, boots: seq<BootstrapStep>, p: Progress, d: Definition,
                    rows: map<string, StepRow>, complete: bool)
    requires d in m && !p.returned && Silent(p.report) && (complete ==> JustRead(p.session, d, rows))
    ensures Tells(m, boots, FinishVersion(MigrateSteps(p, d, 0, rows, complete), d, complete))
  {
    hide MigrateSteps, FinishVersion, JustRead;
    StepsTold(m, boots, p, d, 0, rows, complete);
    FinishTold(m, boots, MigrateSteps(p, d, 0, rows, complete), d, complete);
  }

  lemma VersionTold(m: Manifest, boots: seq<BootstrapStep>, s: Session, r: Report, d: Definition)
    requires d in m && Silent(r)
    ensures Tells(m, boots, MigrateVersion(s, r, d))
  {
    hide Send, MigrateRows, Said;
    var read := Send(s, ReadVersion(d.version));
    SentSaid(s, ReadVersion(d.version));
    var versions := View(read.0).versions;
    RowsTold(m, boots, read.0, r, d, d.version in versions && versions[d.version].status == SUCCEEDED);
  }

  lemma {:induction false} VersionsTold(m: Manifest, boots: seq<BootstrapStep>, p: Progress, k: nat)
    requires k <= |m| && Tells(m, boots, p)
    ensures Tells(m, boots, MigrateVersions(p, m, k))
    decreases |m| - k
  {
    hide MigrateVersion, Explained;
    if !p.returned && k < |m| {
      VersionTold(m, boots, p.session, p.report, m[k]);
      VersionsTold(m, boots, MigrateVersion(p.session, p.report, m[k]), k + 1);
    }
  }

  lemma {:induction false} BootstrapsTold(m: Manifest, boots: seq<BootstrapStep>, p: Progress, k: nat)
    requires k <= |boots| && Tells(m, boots, p)
    ensures Tells(m, boots, Bootstraps(p, boots, k))
    decreases |boots| - k
  {
    hide Send, StatementScanner.Accepts, Said;
    if !p.returned && k < |boots| {
      var id := boots[k].id;
      assert boots[k] in boots;
      SentSaid(p.session, Bootstrap(id));
      var created := Send(p.session, Bootstrap(id)).0;
      SentSaid(created, VerifyBootstrap(id));
      var next := Progress(Send(created, VerifyBootstrap(id)).0, p.report, false);
      BootstrapsTold(m, boots, next, k + 1);
    }
  }

  lemma LockedTold(m: Manifest, s: Session, r: Report, boots: seq<BootstrapStep>)
    requires Silent(r)
    ensures Tells(m, boots, RunLocked(s, r, m, boots))
  {
    hide Bootstraps, MigrateVersions;
    if boots != [] {
      var p := Bootstraps(Progress(s, r, false), boots, 0);
      BootstrapsTold(m, boots, Progress(s, r, false), 0);
      if !p.returned {
        VersionsTold(m, boots, p.(report := p.report.(succeeded := true)), 0);
      }
    }
  }

  /** The session of a finished run, without its last statement. */
  function ButLast(t: Session): Session
    requires t.log != []
  {
    t.(log := t.log[..|t.log| - 1])
  }

  lemma StillExplained(m: Manifest, boots: seq<BootstrapStep>, p: Progress, t: Session)
    requires Explained(m, boots, p) && t.log == p.session.log && t.env == p.session.env
    requires View(t) == View(p.session) && (p.session.poisoned ==> t.poisoned)
    ensures Explained(m, boots, p.(session := t))
  {
  }

  lemma Released(s: Session)
    ensures
      var t := Release(s).0;
      t.log != [] && ButLast(t).log == s.log && t.log[|t.log| - 1].stmt == ReleaseLock && t.env == s.env &&
      View(t) == View(s) && (s.poisoned ==> t.poisoned) &&
      (s.locked && !Release(s).1 ==> t.poisoned && Said(t.log, 1, ReleaseLock, false))
  {
  }

  lemma LockAnswered(s: Session)
    requires !s.locked
    ensures var t := Send(s, GetLock); t.1 && !t.0.locked ==> s.env.lockTaken
  {
  }

  lemma StaysLocked(m: Manifest, boots: seq<BootstrapStep>, s: Session)
    ensures RunLocked(s, InitialReport(m), m, boots).session.locked == s.locked
  {
    hide RunLocked;
    MigrationLocks.LockedFrame(s, InitialReport(m), m, boots);
  }

  /** What a run that holds the lock says. */
  lemma HeldTold(m: Manifest, boots: seq<BootstrapStep>, s: Session)
    requires s.locked
    ensures
      var p := RunLocked(s, InitialReport(m), m, boots);
      var t := Release(p.session);
      var r := if p.returned || t.1 then p.report else Fail(p.report, "", ReleaseUnconfirmed);
      Concluded(m, boots, t.0, r) && !r.reason.LockUnanswered? && !r.reason.LockNotAcquired?
  {
    hide RunLocked, Release, Said, Refuses, Breaks, MigrationReports.Tally, InitialReport;
    assert Silent(InitialReport(m)) by { StartsSilent(m); }
    var p := RunLocked(s, InitialReport(m), m, boots);
    LockedTold(m, s, InitialReport(m), boots);
    StaysLocked(m, boots, s);
    MigrationReports.LockedTally(s, m, boots);
    Released(p.session);
    var t := Release(p.session);
    if p.returned {
      StillExplained(m, boots, p, ButLast(t.0));
      NotAbout(m, boots, p);
    }
  }

  lemma StartsSilent(m: Manifest)
    ensures Silent(InitialReport(m))
  {
  }

  lemma NotAbout(m: Manifest, boots: seq<BootstrapStep>, p: Progress)
    requires Explained(m, boots, p)
    ensures
      var reason := p.report.reason;
      !reason.NoFailure? && !reason.LockUnanswered? && !reason.LockNotAcquired? && !reason.ReleaseUnconfirmed?
  {
  }

  /** What the report r of a run that ended in t promises. */
  ghost predicate Concluded(m: Manifest, boots: seq<BootstrapStep>, t: Session, r: Report) {
    t.log != [] &&
    match r.reason
    case NoFailure => r.succeeded && r.failedStep == ""
    case LockUnanswered => !r.succeeded && r.failedStep == "" && Said(t.log, 1, GetLock, false)
    case LockNotAcquired => !r.succeeded && r.failedStep == "" && Said(t.log, 1, GetLock, true) && t.env.lockTaken
    case ReleaseUnconfirmed =>
      !r.succeeded && r.failedStep == "" && Said(t.log, 1, ReleaseLock, false) && t.poisoned
    case _ =>
      !r.succeeded && t.log[|t.log| - 1].stmt == ReleaseLock &&
      (Refuses(m, boots, ButLast(t), r.failedStep, r.reason) || Breaks(m, ButLast(t), r.failedStep, r.reason))
  }

  /**
   The message of every run tells the truth, whatever fails. Success carries none. A lock that
   was not acquired, an unanswered GET_LOCK and an unconfirmed release are named as such; the last of
   them has poisoned the connection. In any other case the last statement was RELEASE_LOCK, and
   what came before it, or a recorded row, is what the reason says, with the step and the flags.
   */
  lemma {:induction false} MessageIsTrue(m: Manifest, boots: seq<BootstrapStep>, s: Session)
    requires !s.locked
    ensures Concluded(m, boots, Run(s, m, boots).0, Run(s, m, boots).1)
  {
    hide Send, RunLocked, Release, Refuses, Breaks, Required, Deferred;
    SentSaid(s, GetLock);
    LockAnswered(s);
    KeepsEnv(s);
    var acquired := Send(s, GetLock);
    if acquired.1 && acquired.0.locked {
      HeldTold(m, boots, acquired.0);
    }
  }

  lemma KeepsEnv(s: Session)
    ensures Send(s, GetLock).0.env == s.env
  {
  }
}
