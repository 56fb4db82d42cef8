/**
 MigrationRunner::run (migration.cpp:330-543) as a function of the session it is given: which
 statements are sent, what is recorded, and what is reported, on every exit path.
 */
module Migration {
  import opened Wrappers
  import opened Sql
  import opened StepChecksum
  import Transactions
  import StatementScanner

  datatype Step = Step(id: string, phase: Phase, execution: Execution, checksum: string)

  datatype Definition = Definition(version: nat, name: string, steps: seq<Step>)

  datatype BootstrapStep = BootstrapStep(id: string, applySql: string, verifySql: string)

  datatype Cause = TransactionNotStarted | StatementFailed | VerificationUnanswered | VerificationFalse | CommitUnknown

  /** Why a run failed; one constructor for each message. */
  datatype Reason =
    | NoFailure
    | LockUnanswered
    | LockNotAcquired
    | BootstrapMissing
    | BootstrapMultipleStatements
    | MetadataTableFailed
    | MetadataUnverified
    | MetadataIncompatible
    | VersionUnread
    | VersionRenamed
    | ManifestUnread
    | ManifestDrift
    | VersionRunningUnrecorded
    | IncompleteStepRecord
    | MissingStepRecord
    | RecoveredUnrecorded
    | StepRunningUnrecorded
    | StepFailed(cause: Cause, stepUnrecorded: bool, versionUnrecorded: bool)
    | SuccessUnrecorded
    | VersionUnrecorded
    | ReleaseUnconfirmed

  datatype Report = Report(
    succeeded: bool,
    versionsApplied: nat,
    versionsAlreadyComplete: nat,
    stepsApplied: nat,
    applied: seq<string>,
    alreadyComplete: seq<string>,
    pending: seq<string>,
    deferredCleanup: seq<string>,
    nonRollbackable: seq<string>,
    failedStep: string,
    reason: Reason)

  /** A run so far: the session, the report, and whether the run has returned. */
  datatype Progress = Progress(session: Session, report: Report, returned: bool)

  function Key(d: Definition, step: Step): StepKey {
    StepKey(d.version, step.id)
  }

  function RecordOf(step: Step, status: Status): StepRow {
    StepRow(step.checksum, PhaseName(step.phase), ExecutionName(step.execution), status)
  }

  predicate SameMetadata(row: StepRow, step: Step) {
    row.checksum == step.checksum && row.phase == PhaseName(step.phase) &&
    row.execution == ExecutionName(step.execution)
  }

  function Remove(ids: seq<string>, id: string): seq<string> {
    if ids == [] then []
    else if ids[0] == id then Remove(ids[1..], id)
    else [ids[0]] + Remove(ids[1..], id)
  }

  function RequiredOf(steps: seq<Step>): seq<string> {
    if steps == [] then []
    else (if steps[0].phase.Cleanup? then [] else [steps[0].id]) + RequiredOf(steps[1..])
  }

  function CleanupOf(steps: seq<Step>): seq<string> {
    if steps == [] then []
    else (if steps[0].phase.Cleanup? then [steps[0].id] else []) + CleanupOf(steps[1..])
  }

  /** The ids of the steps a run must complete, in run order. */
  function Required(defs: seq<Definition>): seq<string> {
    if defs == [] then [] else RequiredOf(defs[0].steps) + Required(defs[1..])
  }

  function Deferred(defs: seq<Definition>): seq<string> {
    if defs == [] then [] else CleanupOf(defs[0].steps) + Deferred(defs[1..])
  }

  function InitialReport(defs: seq<Definition>): Report {
    Report(false, 0, 0, 0, [], [], Required(defs), Deferred(defs), [], "", NoFailure)
  }

  function Fail(r: Report, step: string, reason: Reason): Report {
    r.(succeeded := false, failedStep := step, reason := reason)
  }

  function Stop(s: Session, r: Report, step: string, reason: Reason): Progress {
    Progress(s, Fail(r, step, reason), true)
  }

  function CountApplied(r: Report, id: string): Report {
    r.(stepsApplied := r.stepsApplied + 1, applied := r.applied + [id], pending := Remove(r.pending, id))
  }

  function CountComplete(r: Report, id: string): Report {
    r.(alreadyComplete := r.alreadyComplete + [id], pending := Remove(r.pending, id))
  }

  function NonRollbackable(r: Report, step: Step): Report {
    if step.execution.AtomicDdl? then r.(nonRollbackable := r.nonRollbackable + [step.id]) else r
  }

  /** The answer of a verify statement: the effect of the step is present. */
  function Holds(s: Session, key: StepKey, execution: Execution): bool {
    if execution.Check? then key in s.env.checks else View(s).effects[key] > 0
  }

  function WriteStepStatus(s: Session, d: Definition, step: Step, status: Status): (Session, bool) {
    Send(s, WriteStep(Key(d, step), RecordOf(step, status)))
  }

  function WriteVersionStatus(s: Session, d: Definition, status: Status): (Session, bool) {
    Send(s, WriteVersion(d.version, VersionRow(d.name, status)))
  }

  /** verifyStep: the session, and the cause of a negative outcome. */
  function VerifyStep(s: Session, d: Definition, step: Step, recovery: bool): (Session, Option<Cause>) {
    var asked := Send(s, Verify(Key(d, step), recovery));
    (asked.0,
     if !asked.1 then Some(VerificationUnanswered)
     else if Holds(asked.0, Key(d, step), step.execution) then None
     else Some(VerificationFalse))
  }

  /** Lines 468-504: what the execution kind of a step makes of its apply statement. */
  function ApplyStep(s: Session, d: Definition, step: Step): (Session, Option<Cause>) {
    match step.execution
    case TransactionalDml =>
      var begun := Transactions.BeginOn(s);
      if !begun.1 then (begun.0, Some(TransactionNotStarted))
      else
        var sent := Send(begun.0, Apply(Key(d, step)));
        if !sent.1 then (Transactions.RollbackOn(sent.0), Some(StatementFailed))
        else
          var verified := VerifyStep(sent.0, d, step, false);
          if verified.1.Some? then (Transactions.RollbackOn(verified.0), verified.1)
          else
            var committed := Transactions.CommitOn(verified.0);
            (committed.0, if committed.1 then None else Some(CommitUnknown))
    case AtomicDdl =>
      var sent := Send(s, Apply(Key(d, step)));
      if !sent.1 then (sent.0, Some(StatementFailed)) else VerifyStep(sent.0, d, step, false)
    case Check => VerifyStep(s, d, step, false)
  }

  /** Lines 506-516: recording a failed step. */
  function RecordFailure(s: Session, r: Report, d: Definition, step: Step, cause: Cause): Progress {
    var w1 := WriteStepStatus(s, d, step, FAILED);
    var s1 := if w1.1 then w1.0 else Poison(w1.0);
    var w2 := WriteVersionStatus(s1, d, FAILED);
    var s2 := if w2.1 then w2.0 else Poison(w2.0);
    Stop(s2, r, step.id, StepFailed(cause, !w1.1, !w2.1))
  }

  /** Lines 463-524: a step that is not known to be done. */
  function ExecuteStep(s: Session, r: Report, d: Definition, step: Step): Progress {
    var running := WriteStepStatus(s, d, step, RUNNING);
    if !running.1 then Stop(running.0, r, step.id, StepRunningUnrecorded)
    else
      var r1 := NonRollbackable(r, step);
      var outcome := ApplyStep(running.0, d, step);
      if outcome.1.Some? then RecordFailure(outcome.0, r1, d, step, outcome.1.value)
      else
        var done := WriteStepStatus(outcome.0, d, step, SUCCEEDED);
        if !done.1 then Stop(Poison(done.0), r1, step.id, SuccessUnrecorded)
        else Progress(done.0, CountApplied(r1, step.id), false)
  }

  /** Lines 446-457: a step left unfinished is verified before it is applied again. */
  function RecoverStep(s: Session, r: Report, d: Definition, step: Step): Progress {
    var checked := VerifyStep(s, d, step, true);
    if checked.1.None? then
      var done := WriteStepStatus(checked.0, d, step, SUCCEEDED);
      if !done.1 then Stop(done.0, r, step.id, RecoveredUnrecorded)
      else Progress(done.0, CountApplied(r, step.id), false)
    else ExecuteStep(checked.0, r, d, step)
  }

  /** Lines 432-525: one step, given the records read at the start of its version. */
  function MigrateStep(s: Session, r: Report, d: Definition, step: Step,
                       recorded: map<string, StepRow>, complete: bool): Progress
  {
    if step.phase.Cleanup? then Progress(s, r, false)
    else if step.id in recorded then
      var status := recorded[step.id].status;
      if complete && status != SUCCEEDED then Stop(s, r, step.id, IncompleteStepRecord)
      else if status == SUCCEEDED then Progress(s, CountComplete(r, step.id), false)
      else RecoverStep(s, r, d, step)
    else if complete then Stop(s, r, step.id, MissingStepRecord)
    else ExecuteStep(s, r, d, step)
  }

  function MigrateSteps(p: Progress, d: Definition, k: nat,
                        recorded: map<string, StepRow>, complete: bool): Progress
    requires k <= |d.steps|
    decreases |d.steps| - k
  {
    if p.returned || k == |d.steps| then p
    else
      MigrateSteps(MigrateStep(p.session, p.report, d, d.steps[k], recorded, complete), d, k + 1, recorded, complete)
  }

  /** The rows of a version, as read at its start. */
  function RowsOf(db: Database, version: nat): map<string, StepRow> {
    map key | key in db.steps && key.version == version :: key.id := db.steps[key]
  }

  function StepIds(d: Definition): set<string> {
    set step | step in d.steps :: step.id
  }

  /** Every recorded row belongs to a step of the manifest and repeats its metadata. */
  predicate Matches(rows: map<string, StepRow>, d: Definition) {
    forall id :: id in rows ==> id in StepIds(d) && SameMetadata(rows[id], Current(d.steps, id))
  }

  /** The first step with the given id. */
  function Current(steps: seq<Step>, id: string): (step: Step)
    requires exists s :: s in steps && s.id == id
    ensures step in steps && step.id == id
  {
    if steps[0].id == id then steps[0]
    else
      assert exists s :: s in steps[1..] && s.id == id;
      Current(steps[1..], id)
  }

  /** Lines 526-535: a version whose steps are all done. */
  function FinishVersion(p: Progress, d: Definition, complete: bool): Progress {
    if p.returned then p
    else if complete then
      p.(report := p.report.(versionsAlreadyComplete := p.report.versionsAlreadyComplete + 1))
    else
      var done := WriteVersionStatus(p.session, d, SUCCEEDED);
      if !done.1 then Stop(Poison(done.0), p.report, "", VersionUnrecorded)
      else Progress(done.0, p.report.(versionsApplied := p.report.versionsApplied + 1), false)
  }

  /** Lines 397-535: one version, once its own row has been read. */
  function MigrateRows(s: Session, r: Report, d: Definition, complete: bool): Progress {
    var listed := Send(s, ReadSteps(d.version));
    if !listed.1 then Stop(listed.0, r, "", ManifestUnread)
    else
      var rows := RowsOf(View(listed.0), d.version);
      if !Matches(rows, d) then Stop(listed.0, r, "", ManifestDrift)
      else
        var started := if complete then (listed.0, true) else WriteVersionStatus(listed.0, d, RUNNING);
        if !started.1 then Stop(started.0, r, "", VersionRunningUnrecorded)
        else FinishVersion(MigrateSteps(Progress(started.0, r, false), d, 0, rows, complete), d, complete)
  }

  /** Lines 378-536: one version. */
  function MigrateVersion(s: Session, r: Report, d: Definition): Progress {
    var read := Send(s, ReadVersion(d.version));
    if !read.1 then Stop(read.0, r, "", VersionUnread)
    else
      var versions := View(read.0).versions;
      if d.version in versions && versions[d.version].name != d.name then
        Stop(read.0, r, "", VersionRenamed)
      else
        MigrateRows(read.0, r, d, d.version in versions && versions[d.version].status == SUCCEEDED)
  }

  function MigrateVersions(p: Progress, defs: seq<Definition>, k: nat): Progress
    requires k <= |defs|
    decreases |defs| - k
  {
    if p.returned || k == |defs| then p
    else MigrateVersions(MigrateVersion(p.session, p.report, defs[k]), defs, k + 1)
  }

  /** Lines 357-375: the metadata tables. */
  function Bootstraps(p: Progress, boots: seq<BootstrapStep>, k: nat): Progress
    requires k <= |boots|
    decreases |boots| - k
  {
    if p.returned || k == |boots| then p
    else
      var b := boots[k];
      if !StatementScanner.Accepts(b.applySql) || !StatementScanner.Accepts(b.verifySql) then
        Stop(p.session, p.report, "", BootstrapMultipleStatements)
      else
        var created := Send(p.session, Bootstrap(b.id));
        if !created.1 then Stop(created.0, p.report, "", MetadataTableFailed)
        else
          var verified := Send(created.0, VerifyBootstrap(b.id));
          if !verified.1 then Stop(verified.0, p.report, b.id, MetadataUnverified)
          else if b.id in verified.0.env.incompatible then Stop(verified.0, p.report, b.id, MetadataIncompatible)
          else Bootstraps(Progress(verified.0, p.report, false), boots, k + 1)
  }

  /** Lines 354-536: everything that happens while the named lock is held. */
  function RunLocked(s: Session, r: Report, defs: seq<Definition>, boots: seq<BootstrapStep>): Progress {
    if boots == [] then Stop(s, r, "", BootstrapMissing)
    else
      var p := Bootstraps(Progress(s, r, false), boots, 0);
      if p.returned then p
      else MigrateVersions(p.(report := p.report.(succeeded := true)), defs, 0)
  }

  /** The lock is given up once; a release that is not confirmed poisons the session. */
  function Release(s: Session): (Session, bool) {
    var released := Send(s, ReleaseLock);
    if released.1 && s.locked then released else (Poison(released.0), false)
  }

  function Run(s: Session, defs: seq<Definition>, boots: seq<BootstrapStep>): (Session, Report) {
    var r := InitialReport(defs);
    var acquired := Send(s, GetLock);
    if !acquired.1 then (acquired.0, Fail(r, "", LockUnanswered))
    else if !acquired.0.locked then (acquired.0, Fail(r, "", LockNotAcquired))
    else
      var p := RunLocked(acquired.0, r, defs, boots);
      var released := Release(p.session);
      if p.returned then (released.0, p.report)
      else if !released.1 then (released.0, Fail(p.report, "", ReleaseUnconfirmed))
      else (released.0, p.report)
  }
}
