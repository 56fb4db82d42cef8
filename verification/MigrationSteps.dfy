/** What one migration step can do to the committed rows, whatever the fates of its statements. */
module MigrationSteps {
  import opened Wrappers
  import opened Sql
  import opened Migration
  import opened Transactions
  import opened Traces

  /** No working copy can be committed later: none is open, or the session is refused everything. */
  predicate Idle(s: Session) {
    s.poisoned || s.txn.None?
  }

  /** A recovery verify went unanswered on a connection that stayed usable. */
  predicate Blind(e: Event) {
    e.stmt.Verify? && e.stmt.recovery && e.fate.Failed? && !e.fate.lost
  }

  /** No unfinished step was taken for "not applied" because its verify got no answer. */
  predicate Attended(s: Session) {
    forall i :: 0 <= i < |s.log| ==> !Blind(s.log[i])
  }

  predicate IsLockStatement(stmt: Statement) {
    stmt.GetLock? || stmt.ReleaseLock?
  }

  /** A statement of the runner between the lock statements: it touches neither users nor goods. */
  predicate IsMigration(stmt: Statement) {
    !IsLockStatement(stmt) && !stmt.SetPassword? && !stmt.AddAdministrator? && !stmt.InsertGoods? && !stmt.MarkTaken?
  }

  /**
   What every stretch of statements between the lock statements keeps: the log only grows, by
   statements that leave the named lock, users and goods alone, the server saw these statements and no others, and
   a poisoned session is frozen.
   */
  predicate Frame(s: Session, t: Session) {
    && s.log <= t.log
    && (forall i :: |s.log| <= i < |t.log| ==> IsMigration(t.log[i].stmt))
    && t.locked == s.locked && t.env == s.env && Traced(s, t)
    && (s.poisoned ==> t.poisoned && t.db == s.db && t.txn == s.txn)
    && (Faultless(s) && !t.poisoned ==> Faultless(t))
  }

  lemma FrameTransitive(s: Session, t: Session, u: Session)
    requires Frame(s, t) && Frame(t, u)
    ensures Frame(s, u)
  {
    hide Traced;
    TracedTransitive(s, t, u);
    forall i | |s.log| <= i < |u.log| ensures IsMigration(u.log[i].stmt) {
      assert i < |t.log| ==> u.log[i] == t.log[i];
    }
  }

  lemma SendFrame(s: Session, stmt: Statement)
    requires IsMigration(stmt)
    ensures Frame(s, Send(s, stmt).0)
  {
    hide Traced, Perform;
    TracedSend(s, stmt);
  }

  /** Only the connection is given up. */
  lemma PoisonFrame(s: Session)
    ensures Frame(s, s) && Frame(s, Poison(s))
  {
    hide Traced;
    TracedStill(s, s);
    TracedStill(s, Poison(s));
  }

  lemma AttendedEarlier(s: Session, t: Session)
    requires Frame(s, t) && Attended(t)
    ensures Attended(s)
  {
    forall i | 0 <= i < |s.log| ensures !Blind(s.log[i]) {
      assert s.log[i] == t.log[i];
    }
  }

  lemma BeginFrame(s: Session)
    ensures Frame(s, BeginOn(s).0)
  {
    var isolated := Send(s, SetIsolation);
    SendFrame(s, SetIsolation);
    if isolated.1 {
      SendFrame(isolated.0, Start);
      FrameTransitive(s, isolated.0, Send(isolated.0, Start).0);
    }
  }

  lemma EndFrame(s: Session)
    ensures Frame(s, CommitOn(s).0) && Frame(s, RollbackOn(s))
  {
    SendFrame(s, Commit);
    SendFrame(s, Rollback);
  }

  lemma VerifyFrame(s: Session, d: Definition, step: Step, recovery: bool)
    ensures Frame(s, VerifyStep(s, d, step, recovery).0)
  {
    SendFrame(s, Verify(Key(d, step), recovery));
  }

  lemma ApplyFrame(s: Session, d: Definition, step: Step)
    ensures Frame(s, ApplyStep(s, d, step).0)
  {
    var apply := Apply(Key(d, step));
    match step.execution
    case Check => VerifyFrame(s, d, step, false);
    case AtomicDdl =>
      SendFrame(s, apply);
      var sent := Send(s, apply);
      if sent.1 {
        VerifyFrame(sent.0, d, step, false);
        FrameTransitive(s, sent.0, VerifyStep(sent.0, d, step, false).0);
      }
    case TransactionalDml =>
      BeginFrame(s);
      var begun := BeginOn(s);
      if begun.1 {
        DmlFrame(begun.0, d, step);
        FrameTransitive(s, begun.0, ApplyStep(s, d, step).0);
      }
  }

  /** The part of a DML step inside its transaction. */
  function DmlBody(s: Session, d: Definition, step: Step): (Session, Option<Cause>) {
    var sent := Send(s, Apply(Key(d, step)));
    if !sent.1 then (RollbackOn(sent.0), Some(StatementFailed))
    else
      var verified := VerifyStep(sent.0, d, step, false);
      if verified.1.Some? then (RollbackOn(verified.0), verified.1)
      else
        var committed := CommitOn(verified.0);
        (committed.0, if committed.1 then None else Some(CommitUnknown))
  }

  lemma DmlFrame(s: Session, d: Definition, step: Step)
    ensures Frame(s, DmlBody(s, d, step).0)
  {
    hide RollbackOn, CommitOn, Send;
    var sent := Send(s, Apply(Key(d, step)));
    SendFrame(s, Apply(Key(d, step)));
    if !sent.1 {
      EndFrame(sent.0);
      FrameTransitive(s, sent.0, RollbackOn(sent.0));
    } else {
      var verified := VerifyStep(sent.0, d, step, false);
      VerifyFrame(sent.0, d, step, false);
      FrameTransitive(s, sent.0, verified.0);
      EndFrame(verified.0);
      FrameTransitive(s, verified.0, RollbackOn(verified.0));
      FrameTransitive(s, verified.0, CommitOn(verified.0).0);
    }
  }

  lemma ExecuteFrame(s: Session, r: Report, d: Definition, step: Step)
    ensures Frame(s, ExecuteStep(s, r, d, step).session)
  {
    hide Send, ApplyStep;
    var running := WriteStepStatus(s, d, step, RUNNING);
    SendFrame(s, WriteStep(Key(d, step), RecordOf(step, RUNNING)));
    if running.1 {
      var outcome := ApplyStep(running.0, d, step);
      ApplyFrame(running.0, d, step);
      FrameTransitive(s, running.0, outcome.0);
      if outcome.1.Some? {
        FailureFrame(outcome.0, NonRollbackable(r, step), d, step, outcome.1.value);
        FrameTransitive(s, outcome.0, ExecuteStep(s, r, d, step).session);
      } else {
        SendFrame(outcome.0, WriteStep(Key(d, step), RecordOf(step, SUCCEEDED)));
        FrameTransitive(s, outcome.0, WriteStepStatus(outcome.0, d, step, SUCCEEDED).0);
      }
    }
  }

  lemma FailureFrame(s: Session, r: Report, d: Definition, step: Step, cause: Cause)
    ensures Frame(s, RecordFailure(s, r, d, step, cause).session)
  {
    hide Send;
    var w1 := WriteStepStatus(s, d, step, FAILED);
    SendFrame(s, WriteStep(Key(d, step), RecordOf(step, FAILED)));
    var s1 := if w1.1 then w1.0 else Poison(w1.0);
    SendFrame(s1, WriteVersion(d.version, VersionRow(d.name, FAILED)));
    assert Frame(s, s1);
    FrameTransitive(s, s1, WriteVersionStatus(s1, d, FAILED).0);
  }

  lemma StepFrame(s: Session, r: Report, d: Definition, step: Step, recorded: map<string, StepRow>, complete: bool)
    ensures Frame(s, MigrateStep(s, r, d, step, recorded, complete).session)
  {
    PoisonFrame(s);
    hide Send, ExecuteStep, Frame;
    ExecuteFrame(s, r, d, step);
    var checked := VerifyStep(s, d, step, true);
    VerifyFrame(s, d, step, true);
    ExecuteFrame(checked.0, r, d, step);
    FrameTransitive(s, checked.0, ExecuteStep(checked.0, r, d, step).session);
    SendFrame(checked.0, WriteStep(Key(d, step), RecordOf(step, SUCCEEDED)));
    FrameTransitive(s, checked.0, WriteStepStatus(checked.0, d, step, SUCCEEDED).0);
  }

  /** A data statement outside a transaction commits by itself. */
  lemma SendAlone(s: Session, stmt: Statement)
    requires Idle(s) && IsData(stmt)
    ensures var r := Send(s, stmt);
      && Idle(r.0)
      && (r.0.db == s.db || r.0.db == Perform(s.db, stmt))
      && (r.1 ==> Fit(r.0) && r.0.db == Perform(s.db, stmt))
  {
  }

  /** A data statement inside a transaction only changes the working copy. */
  lemma SendInside(s: Session, stmt: Statement)
    requires !s.poisoned && s.txn.Some? && IsData(stmt)
    ensures var r := Send(s, stmt);
      && r.0.db == s.db && r.0.txn.Some?
      && (r.1 ==> !r.0.poisoned && r.0.txn.value == Perform(s.txn.value, stmt))
  {
  }

  predicate IsData(stmt: Statement) {
    !IsLockStatement(stmt) && !stmt.Start? && !stmt.Commit? && !stmt.Rollback? && !stmt.InsertGoods?
  }

  lemma BeginOutcome(s: Session)
    requires Fit(s)
    ensures var r := BeginOn(s);
      && r.0.db == s.db
      && (if r.1 then !r.0.poisoned && r.0.txn == Some(s.db) else r.0.poisoned)
  {
  }

  lemma EndOutcome(s: Session)
    requires s.txn.Some?
    ensures var c := CommitOn(s);
      && Idle(c.0) && (c.0.db == s.db || c.0.db == s.txn.value)
      && (c.1 ==> Fit(c.0) && c.0.db == s.txn.value)
    ensures var r := RollbackOn(s); Idle(r) && r.db == s.db
  {
  }

  /** The apply statement takes effect at most once, and exactly once when the step reports no cause. */
  lemma ApplyOutcome(s: Session, d: Definition, step: Step)
    requires Fit(s)
    ensures var r := ApplyStep(s, d, step); var applied := Perform(s.db, Apply(Key(d, step)));
      && Idle(r.0)
      && (r.0.db == s.db || (r.0.db == applied && !step.execution.Check?))
      && (r.1.None? ==> Fit(r.0))
      && (r.1.None? && !step.execution.Check? ==> r.0.db == applied)
  {
    hide Send, BeginOn, CommitOn, RollbackOn;
    var apply := Apply(Key(d, step));
    match step.execution
    case Check => SendAlone(s, Verify(Key(d, step), false));
    case AtomicDdl =>
      SendAlone(s, apply);
      var sent := Send(s, apply);
      SendAlone(sent.0, Verify(Key(d, step), false));
    case TransactionalDml =>
      BeginOutcome(s);
      var begun := BeginOn(s);
      if begun.1 {
        DmlOutcome(begun.0, d, step);
      }
  }

  lemma DmlOutcome(s: Session, d: Definition, step: Step)
    requires !s.poisoned && s.txn == Some(s.db)
    ensures var r := DmlBody(s, d, step); var applied := Perform(s.db, Apply(Key(d, step)));
      && Idle(r.0)
      && (r.0.db == s.db || r.0.db == applied)
      && (r.1.None? ==> Fit(r.0) && r.0.db == applied)
  {
    hide Send, CommitOn, RollbackOn;
    var sent := Send(s, Apply(Key(d, step)));
    SendInside(s, Apply(Key(d, step)));
    EndOutcome(sent.0);
    if sent.1 {
      SendInside(sent.0, Verify(Key(d, step), false));
      EndOutcome(VerifyStep(sent.0, d, step, false).0);
    }
  }

  predicate Succeeded(db: Database, key: StepKey) {
    key in db.steps && db.steps[key].status == SUCCEEDED
  }

  predicate MetadataKept(db: Database, d: Definition, step: Step) {
    Key(d, step) in db.steps ==> SameMetadata(db.steps[Key(d, step)], step)
  }

  /** The record of the step is as before, or has been given a status. */
  predicate StepWritten(db: Database, db': Database, d: Definition, step: Step) {
    var key := Key(d, step);
    db'.steps == db.steps ||
    (key in db'.steps && db'.steps == db.steps[key := RecordOf(step, db'.steps[key].status)])
  }

  predicate VersionFailed(db: Database, db': Database, d: Definition) {
    db'.versions == db.versions || db'.versions == db.versions[d.version := VersionRow(d.name, FAILED)]
  }

  function Counted(db: Database, key: StepKey): multiset<StepKey> {
    db.effects[key := db.effects[key] + 1]
  }

  /** What working on a step does to the rows: nothing beyond its own record, its effect and its version. */
  predicate Worked(s: Session, p: Progress, d: Definition, step: Step) {
    var key := Key(d, step);
    var db := s.db;
    var db' := p.session.db;
    && StepWritten(db, db', d, step)
    && (db'.effects == db.effects ||
        (db'.effects == Counted(db, key) && key in db'.steps && !step.execution.Check?))
    && (Succeeded(db', key) && !step.execution.Check? ==> db'.effects[key] >= 1)
    && VersionFailed(db, db', d)
    && Idle(p.session)
    && (!p.returned ==> Fit(p.session) && Succeeded(db', key) && db'.versions == db.versions)
  }

  lemma StatusWrite(db: Database, d: Definition, step: Step, status: Status)
    requires MetadataKept(db, d, step)
    ensures var db' := Perform(db, WriteStep(Key(d, step), RecordOf(step, status)));
      && db'.steps == db.steps[Key(d, step) := RecordOf(step, status)]
      && db'.effects == db.effects && db'.versions == db.versions
  {
  }

  lemma ApplyEffect(db: Database, key: StepKey)
    ensures Perform(db, Apply(key)) == db.(effects := Counted(db, key))
  {
  }

  lemma FailureOutcome(s: Session, r: Report, d: Definition, step: Step, cause: Cause)
    requires Idle(s) && MetadataKept(s.db, d, step)
    ensures var p := RecordFailure(s, r, d, step, cause); var db := s.db; var db' := p.session.db;
      && p.returned && Idle(p.session)
      && (db'.steps == db.steps || db'.steps == db.steps[Key(d, step) := RecordOf(step, FAILED)])
      && db'.effects == db.effects && VersionFailed(db, db', d)
  {
    hide Send;
    StatusWrite(s.db, d, step, FAILED);
    SendAlone(s, WriteStep(Key(d, step), RecordOf(step, FAILED)));
    var w1 := WriteStepStatus(s, d, step, FAILED);
    var s1 := if w1.1 then w1.0 else Poison(w1.0);
    SendAlone(s1, WriteVersion(d.version, VersionRow(d.name, FAILED)));
  }

  lemma Overwrite<K, V>(m: map<K, V>, k: K, v: V, w: V)
    ensures m[k := v][k := w] == m[k := w]
  {
  }

  lemma ExecuteOutcome(s: Session, r: Report, d: Definition, step: Step)
    requires Idle(s) && MetadataKept(s.db, d, step) && !Succeeded(s.db, Key(d, step))
    ensures Worked(s, ExecuteStep(s, r, d, step), d, step)
  {
    hide Send, ApplyStep, RecordFailure, Perform;
    var key := Key(d, step);
    var running := WriteStepStatus(s, d, step, RUNNING);
    StatusWrite(s.db, d, step, RUNNING);
    SendAlone(s, WriteStep(key, RecordOf(step, RUNNING)));
    if running.1 {
      ApplyOutcome(running.0, d, step);
      ApplyEffect(running.0.db, key);
      RunningOutcome(s, running.0, r, d, step);
    }
  }

  /** From the RUNNING record on. */
  lemma RunningOutcome(s: Session, s1: Session, r: Report, d: Definition, step: Step)
    requires !Succeeded(s.db, Key(d, step))
    requires s1.db.steps == s.db.steps[Key(d, step) := RecordOf(step, RUNNING)]
    requires s1.db.effects == s.db.effects && s1.db.versions == s.db.versions
    requires Fit(s1) && (s1, true) == WriteStepStatus(s, d, step, RUNNING)
    requires var o := ApplyStep(s1, d, step);
      && Idle(o.0) && (o.1.None? ==> Fit(o.0))
      && (o.0.db == s1.db ||
          (o.0.db == s1.db.(effects := Counted(s.db, Key(d, step))) && !step.execution.Check?))
      && (o.1.None? && !step.execution.Check? ==> o.0.db.effects == Counted(s.db, Key(d, step)))
    ensures Worked(s, ExecuteStep(s, r, d, step), d, step)
  {
    hide Send, ApplyStep, RecordFailure, Perform;
    var key := Key(d, step);
    var o := ApplyStep(s1, d, step);
    var m := s.db.steps;
    Overwrite(m, key, RecordOf(step, RUNNING), RecordOf(step, FAILED));
    Overwrite(m, key, RecordOf(step, RUNNING), RecordOf(step, SUCCEEDED));
    if o.1.Some? {
      FailureOutcome(o.0, NonRollbackable(r, step), d, step, o.1.value);
    } else {
      StatusWrite(o.0.db, d, step, SUCCEEDED);
      SendAlone(o.0, WriteStep(key, RecordOf(step, SUCCEEDED)));
    }
  }

  /** The effect of a step stays unique if its recovery verify is never answered by silence. */
  predicate OnceMore(s: Session, p: Progress, d: Definition, step: Step) {
    var key := Key(d, step);
    (s.db.effects[key] <= 1 && (s.db.effects[key] > 0 ==> key in s.db.steps) && Attended(p.session)) ==>
      p.session.db.effects[key] <= 1
  }

  lemma RecoverOutcome(s: Session, r: Report, d: Definition, step: Step)
    requires Fit(s) && MetadataKept(s.db, d, step) && !Succeeded(s.db, Key(d, step))
    ensures Worked(s, RecoverStep(s, r, d, step), d, step)
    ensures OnceMore(s, RecoverStep(s, r, d, step), d, step)
  {
    hide Send, ExecuteStep;
    var key := Key(d, step);
    var checked := VerifyStep(s, d, step, true);
    SendAlone(s, Verify(key, true));
    RecheckEvent(s, d, step);
    if checked.1.None? {
      StatusWrite(checked.0.db, d, step, SUCCEEDED);
      SendAlone(checked.0, WriteStep(key, RecordOf(step, SUCCEEDED)));
    } else {
      ExecuteOutcome(checked.0, r, d, step);
      var p := ExecuteStep(checked.0, r, d, step);
      ExecuteFrame(checked.0, r, d, step);
      if Attended(p.session) && s.db.effects[key] > 0 {
        AttendedEarlier(checked.0, p.session);
        assert step.execution.Check? || checked.0.poisoned;
      }
    }
  }

  /** An unanswered recovery verify either poisons the connection or leaves its mark in the log. */
  lemma RecheckEvent(s: Session, d: Definition, step: Step)
    requires Fit(s)
    ensures var checked := VerifyStep(s, d, step, true);
      Attended(checked.0) && !checked.0.poisoned ==> checked.1 != Some(VerificationUnanswered)
  {
    var checked := VerifyStep(s, d, step, true);
    assert checked.0.log[|s.log|] == Event(Verify(Key(d, step), true), NextFate(s));
  }
}
