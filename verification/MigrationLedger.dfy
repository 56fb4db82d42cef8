/**
 The lists and counters of a report, read off the statements that the run has sent: what is listed
 as applied is what was recorded SUCCEEDED, in that order, and nothing is recorded SUCCEEDED
 that was not verified first (migration.cpp:432-535).
 */
module MigrationLedger {
  import opened Wrappers
  import opened Sql
  import opened Transactions
  import opened Migration
  import StatementScanner
  import opened MigrationSteps
  import opened MigrationRecovery

  /** Steps recorded SUCCEEDED, apply statements of DDL steps, and versions recorded SUCCEEDED. */
  datatype Ledger = Ledger(applied: seq<string>, ddl: seq<string>, versions: nat)

  const BLANK := Ledger([], [], 0)

  function Plus(a: Ledger, b: Ledger): Ledger {
    Ledger(a.applied + b.applied, a.ddl + b.ddl, a.versions + b.versions)
  }

  ghost predicate IsDdl(m: Manifest, key: StepKey) {
    exists i, j :: Valid(m, i, j) && KeyAt(m, i, j) == key && m[i].steps[j].execution.AtomicDdl?
  }

  ghost predicate IsCheck(m: Manifest, key: StepKey) {
    exists i, j :: Valid(m, i, j) && KeyAt(m, i, j) == key && m[i].steps[j].execution.Check?
  }

  predicate Finishes(stmt: Statement) {
    stmt.WriteStep? && stmt.stepRow.status == SUCCEEDED
  }

  ghost function Entry(m: Manifest, e: Event): Ledger {
    match e.stmt
    case WriteStep(key, row) => if row.status == SUCCEEDED && e.fate.Answered? then Ledger([key.id], [], 0) else BLANK
    case WriteVersion(_, row) => if row.status == SUCCEEDED && e.fate.Answered? then Ledger([], [], 1) else BLANK
    case Apply(key) => if IsDdl(m, key) then Ledger([], [key.id], 0) else BLANK
    case _ => BLANK
  }

  ghost function Read(m: Manifest, log: seq<Event>): Ledger {
    if log == [] then BLANK else Plus(Read(m, log[..|log| - 1]), Entry(m, log[|log| - 1]))
  }

  function Of(r: Report): Ledger {
    Ledger(r.applied, r.nonRollbackable, r.versionsApplied)
  }

  lemma PlusLaws(a: Ledger, b: Ledger, c: Ledger)
    ensures Plus(Plus(a, b), c) == Plus(a, Plus(b, c)) && Plus(a, BLANK) == a && Plus(BLANK, a) == a
  {
  }

  lemma {:induction false} ReadInParts(m: Manifest, a: seq<Event>, b: seq<Event>)
    ensures Read(m, a + b) == Plus(Read(m, a), Read(m, b))
    decreases |b|
  {
    hide Plus, Entry;
    if b == [] {
      assert a + b == a;
      PlusLaws(Read(m, a), BLANK, BLANK);
    } else {
      var init := b[..|b| - 1];
      assert (a + b)[..|a + b| - 1] == a + init;
      ReadInParts(m, a, init);
      PlusLaws(Read(m, a), Read(m, init), Entry(m, b[|b| - 1]));
    }
  }

  /** Event k of the log is the answered verify of the step, and a check step is in its target state. */
  ghost predicate Confirms(m: Manifest, t: Session, k: int, key: StepKey) {
    0 <= k < |t.log| && t.log[k].stmt.Verify? && t.log[k].stmt.key == key && t.log[k].fate.Answered? &&
    (IsCheck(m, key) ==> key in t.env.checks)
  }

  /** Whatever t has tried to record SUCCEEDED since s was confirmed in between. */
  ghost predicate Vouched(m: Manifest, s: Session, t: Session) {
    forall k :: |s.log| <= k < |t.log| && Finishes(t.log[k].stmt) ==>
      exists j :: |s.log| <= j < k && Confirms(m, t, j, t.log[k].stmt.key)
  }

  /** The report has changed from s to t by what the new part of the log says. */
  ghost predicate Booked(m: Manifest, s: Session, r: Report, t: Session, r': Report) {
    s.log <= t.log && t.env == s.env && Vouched(m, s, t) && Of(r') == Plus(Of(r), Read(m, t.log[|s.log|..]))
  }

  lemma BookedTransitive(m: Manifest, s: Session, r: Report, t: Session, r': Report, u: Session, r'': Report)
    requires Booked(m, s, r, t, r') && Booked(m, t, r', u, r'')
    ensures Booked(m, s, r, u, r'')
  {
    hide Read, Of, Plus, IsCheck;
    var a, b := t.log[|s.log|..], u.log[|t.log|..];
    assert u.log[|s.log|..] == a + b;
    ReadInParts(m, a, b);
    PlusLaws(Of(r), Read(m, a), Read(m, b));
    forall k | |s.log| <= k < |u.log| && Finishes(u.log[k].stmt)
      ensures exists j :: |s.log| <= j < k && Confirms(m, u, j, u.log[k].stmt.key)
    {
      if k < |t.log| {
        assert u.log[k] == t.log[k];
        var j :| |s.log| <= j < k && Confirms(m, t, j, t.log[k].stmt.key);
        assert u.log[j] == t.log[j];
        assert Confirms(m, u, j, u.log[k].stmt.key);
      }
    }
  }

  /** The log and the lists stay as they are. */
  lemma BookedStill(m: Manifest, s: Session, r: Report, t: Session, r': Report)
    requires t.log == s.log && t.env == s.env && Of(r') == Of(r)
    ensures Booked(m, s, r, t, r')
  {
    hide Of;
    assert t.log[|s.log|..] == [];
    PlusLaws(Of(r), BLANK, BLANK);
  }

  lemma BookedSend(m: Manifest, s: Session, r: Report, stmt: Statement, r': Report)
    requires !Finishes(stmt)
    requires Of(r') == Plus(Of(r), Entry(m, Event(stmt, NextFate(s))))
    ensures Booked(m, s, r, Send(s, stmt).0, r')
  {
    hide Entry, Of, IsCheck;
    OneRead(m, s, Event(stmt, NextFate(s)), Send(s, stmt).0);
    SendKeepsEnv(s, stmt);
  }

  lemma SendKeepsEnv(s: Session, stmt: Statement)
    ensures Send(s, stmt).0.env == s.env && (Send(s, stmt).1 <==> NextFate(s).Answered?)
  {
    hide Perform;
  }

  lemma OneRead(m: Manifest, s: Session, e: Event, t: Session)
    requires t.log == s.log + [e]
    ensures Read(m, t.log[|s.log|..]) == Entry(m, e)
  {
    hide Entry;
    var added := t.log[|s.log|..];
    assert added == [e] && added[..0] == [];
    PlusLaws(Entry(m, e), BLANK, BLANK);
  }

  /** A statement that the ledger does not mention. */
  predicate Unlisted(stmt: Statement) {
    !stmt.Apply? && (stmt.WriteStep? ==> stmt.stepRow.status != SUCCEEDED) &&
    (stmt.WriteVersion? ==> stmt.row.status != SUCCEEDED)
  }

  lemma BookedUnlisted(m: Manifest, s: Session, r: Report, stmt: Statement)
    requires Unlisted(stmt)
    ensures Booked(m, s, r, Send(s, stmt).0, r)
  {
    hide Booked, Of;
    PlusLaws(Of(r), BLANK, BLANK);
    BookedSend(m, s, r, stmt, r);
  }

  lemma BookedBegin(m: Manifest, s: Session, r: Report)
    ensures Booked(m, s, r, BeginOn(s).0, r)
  {
    hide Send, Booked, Of;
    var isolated := Send(s, SetIsolation);
    BookedUnlisted(m, s, r, SetIsolation);
    BookedUnlisted(m, isolated.0, r, Start);
    var started := Send(isolated.0, Start).0;
    BookedTransitive(m, s, r, isolated.0, r, started, r);
    BookedPoison(m, s, r, isolated.0);
    BookedPoison(m, s, r, started);
  }

  lemma BookedPoison(m: Manifest, s: Session, r: Report, t: Session)
    ensures Booked(m, t, r, Poison(t), r)
    ensures Booked(m, s, r, t, r) ==> Booked(m, s, r, Poison(t), r)
  {
    hide Booked;
    BookedStill(m, t, r, Poison(t), r);
    if Booked(m, s, r, t, r) {
      BookedTransitive(m, s, r, t, r, Poison(t), r);
    }
  }

  lemma BookedEnd(m: Manifest, s: Session, r: Report)
    ensures Booked(m, s, r, CommitOn(s).0, r) && Booked(m, s, r, RollbackOn(s), r)
  {
    hide Send, Booked;
    BookedUnlisted(m, s, r, Commit);
    BookedUnlisted(m, s, r, Rollback);
    BookedPoison(m, s, r, Send(s, Commit).0);
    BookedPoison(m, s, r, Send(s, Rollback).0);
  }

  // ---- One step ----

  lemma KindsOf(m: Manifest, i: int, j: int)
    requires Distinct(m) && Valid(m, i, j)
    ensures IsDdl(m, KeyAt(m, i, j)) <==> m[i].steps[j].execution.AtomicDdl?
    ensures IsCheck(m, KeyAt(m, i, j)) <==> m[i].steps[j].execution.Check?
  {
    forall i', j' | Valid(m, i', j') && KeyAt(m, i', j') == KeyAt(m, i, j)
      ensures i' == i && j' == j
    {
      KeysDistinct(m, i', j', i, j);
    }
  }

  lemma BookedApply(m: Manifest, i: int, j: int, s: Session, r: Report)
    requires Distinct(m) && Valid(m, i, j)
    ensures Booked(m, s, r, Send(s, Apply(KeyAt(m, i, j))).0, NonRollbackable(r, m[i].steps[j]))
  {
    KindsOf(m, i, j);
    hide Booked, IsDdl;
    PlusLaws(Of(r), BLANK, BLANK);
    BookedSend(m, s, r, Apply(KeyAt(m, i, j)), NonRollbackable(r, m[i].steps[j]));
  }

  lemma BookedVerify(m: Manifest, i: int, j: int, s: Session, r: Report, recovery: bool)
    requires Distinct(m) && Valid(m, i, j)
    ensures
      var v := VerifyStep(s, m[i], m[i].steps[j], recovery);
      Booked(m, s, r, v.0, r) &&
      (v.1.None? ==> exists k :: |s.log| <= k < |v.0.log| && Confirms(m, v.0, k, KeyAt(m, i, j)))
  {
    KindsOf(m, i, j);
    hide IsCheck, Booked;
    BookedUnlisted(m, s, r, Verify(KeyAt(m, i, j), recovery));
    var v := VerifyStep(s, m[i], m[i].steps[j], recovery);
    if v.1.None? {
      assert Confirms(m, v.0, |s.log|, KeyAt(m, i, j));
    }
  }

  /** The step was confirmed somewhere between s and t. */
  ghost predicate ConfirmedBetween(m: Manifest, s: Session, t: Session, key: StepKey) {
    exists k :: |s.log| <= k < |t.log| && Confirms(m, t, k, key)
  }

  lemma ConfirmedLater(m: Manifest, s: Session, t: Session, r: Report, u: Session, r': Report, v: Session, key: StepKey)
    requires |s.log| <= |t.log| && ConfirmedBetween(m, t, u, key) && Booked(m, u, r, v, r')
    ensures ConfirmedBetween(m, s, v, key)
  {
    var k :| |t.log| <= k < |u.log| && Confirms(m, u, k, key);
    assert v.log[k] == u.log[k];
    assert Confirms(m, v, k, key);
  }

  /** The DML body and the DDL statement list the apply statement; a success has been confirmed. */
  lemma ApplyBooked(m: Manifest, i: int, j: int, s: Session, r: Report)
    requires Distinct(m) && Valid(m, i, j)
    ensures
      var o := ApplyStep(s, m[i], m[i].steps[j]);
      var r1 := NonRollbackable(r, m[i].steps[j]);
      Booked(m, s, r, o.0, r1) && (o.1.None? ==> ConfirmedBetween(m, s, o.0, KeyAt(m, i, j)))
  {
    hide Send, Booked, BeginOn, CommitOn, RollbackOn, VerifyStep, IsDdl, Distinct, Confirms, NonRollbackable;
    var d, step, apply := m[i], m[i].steps[j], Apply(KeyAt(m, i, j));
    var r1 := NonRollbackable(r, step);
    match step.execution
    case Check =>
      PlainReport(r, step);
      BookedVerify(m, i, j, s, r, false);
    case AtomicDdl =>
      BookedApply(m, i, j, s, r);
      var sent := Send(s, apply).0;
      BookedVerify(m, i, j, sent, r1, false);
      var v := VerifyStep(sent, d, step, false);
      BookedTransitive(m, s, r, sent, r1, v.0, r1);
      LogGrows(m, s, r, sent, r1);
    case TransactionalDml =>
      PlainReport(r, step);
      BookedBegin(m, s, r);
      var begun := BeginOn(s);
      if begun.1 {
        DmlBooked(m, i, j, begun.0, r);
        BookedTransitive(m, s, r, begun.0, r, DmlBody(begun.0, d, step).0, r);
        LogGrows(m, s, r, begun.0, r);
      }
  }

  lemma PlainReport(r: Report, step: Step)
    requires !step.execution.AtomicDdl?
    ensures NonRollbackable(r, step) == r
  {
  }

  lemma LogGrows(m: Manifest, s: Session, r: Report, t: Session, r': Report)
    requires Booked(m, s, r, t, r')
    ensures |s.log| <= |t.log|
  {
  }

  lemma DmlBooked(m: Manifest, i: int, j: int, s: Session, r: Report)
    requires Distinct(m) && Valid(m, i, j) && m[i].steps[j].execution.TransactionalDml?
    ensures
      var o := DmlBody(s, m[i], m[i].steps[j]);
      Booked(m, s, r, o.0, r) && (o.1.None? ==> ConfirmedBetween(m, s, o.0, KeyAt(m, i, j)))
  {
    hide Send, Booked, CommitOn, RollbackOn, VerifyStep, Confirms;
    var d, step := m[i], m[i].steps[j];
    BookedApply(m, i, j, s, r);
    var sent := Send(s, Apply(KeyAt(m, i, j)));
    BookedEnd(m, sent.0, r);
    BookedTransitive(m, s, r, sent.0, r, RollbackOn(sent.0), r);
    var v := VerifyStep(sent.0, d, step, false);
    BookedVerify(m, i, j, sent.0, r, false);
    BookedTransitive(m, s, r, sent.0, r, v.0, r);
    BookedEnd(m, v.0, r);
    BookedTransitive(m, s, r, v.0, r, RollbackOn(v.0), r);
    BookedTransitive(m, s, r, v.0, r, CommitOn(v.0).0, r);
    LogGrows(m, s, r, sent.0, r);
    if v.1.None? {
      ConfirmedLater(m, s, sent.0, r, v.0, r, CommitOn(v.0).0, KeyAt(m, i, j));
    }
  }

  /** A confirmed step is recorded, and then listed. */
  lemma FinishBooked(m: Manifest, i: int, j: int, s: Session, r: Report, t: Session, r': Report)
    requires Valid(m, i, j) && Booked(m, s, r, t, r') && ConfirmedBetween(m, s, t, KeyAt(m, i, j))
    ensures
      var w := WriteStepStatus(t, m[i], m[i].steps[j], SUCCEEDED);
      Booked(m, s, r, w.0, if w.1 then CountApplied(r', m[i].steps[j].id) else r')
  {
    hide IsCheck, Read, Plus, Remove;
    var key := KeyAt(m, i, j);
    var stmt := WriteStep(key, RecordOf(m[i].steps[j], SUCCEEDED));
    var u := Send(t, stmt);
    var e := Event(stmt, NextFate(t));
    SendKeepsEnv(t, stmt);
    OneRead(m, t, e, u.0);
    var before := t.log[|s.log|..];
    assert u.0.log[|s.log|..] == before + [e] && u.0.log[|t.log|..] == [e];
    ReadInParts(m, before, [e]);
    PlusLaws(Of(r), Read(m, before), Entry(m, e));
    CountedEntry(m, r', m[i].steps[j].id, e);
    forall k | |s.log| <= k < |u.0.log| && Finishes(u.0.log[k].stmt)
      ensures exists l :: |s.log| <= l < k && Confirms(m, u.0, l, u.0.log[k].stmt.key)
    {
      if k < |t.log| {
        assert u.0.log[k] == t.log[k];
        var l :| |s.log| <= l < k && Confirms(m, t, l, t.log[k].stmt.key);
        assert Confirms(m, u.0, l, u.0.log[k].stmt.key);
      } else {
        var l :| |s.log| <= l < |t.log| && Confirms(m, t, l, key);
        assert Confirms(m, u.0, l, u.0.log[k].stmt.key);
      }
    }
  }

  lemma CountedEntry(m: Manifest, r: Report, id: string, e: Event)
    requires Finishes(e.stmt) && e.stmt.key.id == id
    ensures Plus(Of(r), Entry(m, e)) == Of(if e.fate.Answered? then CountApplied(r, id) else r)
  {
  }

  lemma StatusBooked(m: Manifest, i: int, j: int, s: Session, r: Report, status: Status)
    requires Valid(m, i, j) && status != SUCCEEDED
    ensures Booked(m, s, r, WriteStepStatus(s, m[i], m[i].steps[j], status).0, r)
    ensures Booked(m, s, r, WriteVersionStatus(s, m[i], status).0, r)
  {
    hide Booked;
    BookedUnlisted(m, s, r, WriteStep(KeyAt(m, i, j), RecordOf(m[i].steps[j], status)));
    BookedUnlisted(m, s, r, WriteVersion(m[i].version, VersionRow(m[i].name, status)));
  }

  lemma FailureBooked(m: Manifest, i: int, j: int, s: Session, r: Report, cause: Cause)
    requires Valid(m, i, j)
    ensures
      var p := RecordFailure(s, r, m[i], m[i].steps[j], cause);
      Booked(m, s, r, p.session, p.report)
  {
    hide Booked, WriteStepStatus, WriteVersionStatus;
    var d, step := m[i], m[i].steps[j];
    var w1 := WriteStepStatus(s, d, step, FAILED);
    StatusBooked(m, i, j, s, r, FAILED);
    BookedPoison(m, s, r, w1.0);
    var s1 := if w1.1 then w1.0 else Poison(w1.0);
    var w2 := WriteVersionStatus(s1, d, FAILED);
    StatusBooked(m, i, j, s1, r, FAILED);
    BookedPoison(m, s1, r, w2.0);
    var s2 := if w2.1 then w2.0 else Poison(w2.0);
    BookedTransitive(m, s, r, s1, r, s2, r);
    BookedFail(m, s, r, s2, r, step.id, StepFailed(cause, !w1.1, !w2.1));
  }

  /** The message of a failure is no part of the ledger. */
  lemma BookedFail(m: Manifest, s: Session, r: Report, t: Session, r': Report, step: string, reason: Reason)
    requires Booked(m, s, r, t, r')
    ensures Booked(m, s, r, t, Fail(r', step, reason))
  {
    hide Vouched;
  }

  lemma ExecuteBooked(m: Manifest, i: int, j: int, s: Session, r: Report)
    requires Distinct(m) && Valid(m, i, j)
    ensures
      var p := ExecuteStep(s, r, m[i], m[i].steps[j]);
      Booked(m, s, r, p.session, p.report)
  {
    hide Booked, WriteStepStatus, ApplyStep, RecordFailure, NonRollbackable, Fail;
    var d, step := m[i], m[i].steps[j];
    var running := WriteStepStatus(s, d, step, RUNNING);
    StatusBooked(m, i, j, s, r, RUNNING);
    var r1 := NonRollbackable(r, step);
    if !running.1 {
      BookedFail(m, s, r, running.0, r, step.id, StepRunningUnrecorded);
    } else {
      ApplyBooked(m, i, j, running.0, r);
      var o := ApplyStep(running.0, d, step);
      if o.1.Some? {
        FailureBooked(m, i, j, o.0, r1, o.1.value);
        var p := RecordFailure(o.0, r1, d, step, o.1.value);
        BookedTransitive(m, running.0, r, o.0, r1, p.session, p.report);
        BookedTransitive(m, s, r, running.0, r, p.session, p.report);
      } else {
        FinishBooked(m, i, j, running.0, r, o.0, r1);
        var done := WriteStepStatus(o.0, d, step, SUCCEEDED);
        if done.1 {
          BookedTransitive(m, s, r, running.0, r, done.0, CountApplied(r1, step.id));
        } else {
          BookedTransitive(m, s, r, running.0, r, done.0, r1);
          FailedPoisoned(m, s, r, done.0, r1, step.id, SuccessUnrecorded);
        }
      }
    }
  }

  lemma FailedPoisoned(m: Manifest, s: Session, r: Report, t: Session, r': Report, step: string, reason: Reason)
    requires Booked(m, s, r, t, r')
    ensures Booked(m, s, r, Poison(t), Fail(r', step, reason))
  {
    hide Booked;
    BookedStill(m, t, r', Poison(t), r');
    BookedTransitive(m, s, r, t, r', Poison(t), r');
    BookedFail(m, s, r, Poison(t), r', step, reason);
  }

  lemma RecoverBooked(m: Manifest, i: int, j: int, s: Session, r: Report)
    requires Distinct(m) && Valid(m, i, j)
    ensures
      var p := RecoverStep(s, r, m[i], m[i].steps[j]);
      Booked(m, s, r, p.session, p.report)
  {
    hide Booked, ExecuteStep, WriteStepStatus, VerifyStep, Fail, Remove, Distinct;
    var d, step := m[i], m[i].steps[j];
    var v := VerifyStep(s, d, step, true);
    BookedVerify(m, i, j, s, r, true);
    if v.1.None? {
      FinishBooked(m, i, j, s, r, v.0, r);
      var done := WriteStepStatus(v.0, d, step, SUCCEEDED);
      if !done.1 {
        BookedFail(m, s, r, done.0, r, step.id, RecoveredUnrecorded);
      }
    } else {
      ExecuteBooked(m, i, j, v.0, r);
      var p := ExecuteStep(v.0, r, d, step);
      BookedTransitive(m, s, r, v.0, r, p.session, p.report);
    }
  }

  lemma StepBooked(m: Manifest, i: int, j: int, s: Session, r: Report, rows: map<string, StepRow>, complete: bool)
    requires Distinct(m) && Valid(m, i, j)
    ensures
      var p := MigrateStep(s, r, m[i], m[i].steps[j], rows, complete);
      Booked(m, s, r, p.session, p.report)
  {
    BookedStill(m, s, r, s, r);
    BookedStill(m, s, r, s, CountComplete(r, m[i].steps[j].id));
    hide Booked, ExecuteStep, RecoverStep, Fail, Distinct;
    BookedFail(m, s, r, s, r, m[i].steps[j].id, IncompleteStepRecord);
    BookedFail(m, s, r, s, r, m[i].steps[j].id, MissingStepRecord);
    ExecuteBooked(m, i, j, s, r);
    RecoverBooked(m, i, j, s, r);
  }

  // ---- Versions and runs ----

  lemma {:induction false} StepsBooked(m: Manifest, i: int, k: nat, p: Progress,
                                       rows: map<string, StepRow>, complete: bool)
    requires Distinct(m) && 0 <= i < |m| && k <= |m[i].steps|
    ensures
      var q := MigrateSteps(p, m[i], k, rows, complete);
      Booked(m, p.session, p.report, q.session, q.report)
    decreases |m[i].steps| - k
  {
    BookedStill(m, p.session, p.report, p.session, p.report);
    hide Booked, MigrateStep, Distinct;
    if !p.returned && k < |m[i].steps| {
      var next := MigrateStep(p.session, p.report, m[i], m[i].steps[k], rows, complete);
      StepBooked(m, i, k, p.session, p.report, rows, complete);
      StepsBooked(m, i, k + 1, next, rows, complete);
      var q := MigrateSteps(next, m[i], k + 1, rows, complete);
      BookedTransitive(m, p.session, p.report, next.session, next.report, q.session, q.report);
    }
  }

  lemma FinishVersionBooked(m: Manifest, i: int, p: Progress, complete: bool)
    requires 0 <= i < |m|
    ensures
      var q := FinishVersion(p, m[i], complete);
      Booked(m, p.session, p.report, q.session, q.report)
  {
    var r := p.report;
    BookedStill(m, p.session, r, p.session, r);
    BookedStill(m, p.session, r, p.session, r.(versionsAlreadyComplete := r.versionsAlreadyComplete + 1));
    var stmt := WriteVersion(m[i].version, VersionRow(m[i].name, SUCCEEDED));
    var done := Send(p.session, stmt);
    SendKeepsEnv(p.session, stmt);
    var r1 := if done.1 then r.(versionsApplied := r.versionsApplied + 1) else r;
    VersionEntry(m, r, Event(stmt, NextFate(p.session)));
    hide Booked, Send, Of, Plus, Entry;
    BookedSend(m, p.session, r, stmt, r1);
    if !done.1 {
      FailedPoisoned(m, p.session, r, done.0, r, "", VersionUnrecorded);
    }
  }

  lemma VersionEntry(m: Manifest, r: Report, e: Event)
    requires e.stmt.WriteVersion? && e.stmt.row.status == SUCCEEDED
    ensures
      var r' := if e.fate.Answered? then r.(versionsApplied := r.versionsApplied + 1) else r;
      Of(r') == Plus(Of(r), Entry(m, e))
  {
  }

  lemma RowsBooked(m: Manifest, i: int, s: Session, r: Report, complete: bool)
    requires Distinct(m) && 0 <= i < |m|
    ensures
      var p := MigrateRows(s, r, m[i], complete);
      Booked(m, s, r, p.session, p.report)
  {
    hide Booked, Send, MigrateSteps, RowsOf, Matches, Distinct, FinishVersion;
    var d := m[i];
    var listed := Send(s, ReadSteps(d.version)).0;
    BookedUnlisted(m, s, r, ReadSteps(d.version));
    var rows := RowsOf(View(listed), d.version);
    BookedFail(m, s, r, listed, r, "", ManifestUnread);
    BookedFail(m, s, r, listed, r, "", ManifestDrift);
    BookedUnlisted(m, listed, r, WriteVersion(d.version, VersionRow(d.name, RUNNING)));
    var started := if complete then (listed, true) else WriteVersionStatus(listed, d, RUNNING);
    BookedPoison(m, s, r, listed);
    if !complete {
      BookedTransitive(m, s, r, listed, r, started.0, r);
    }
    BookedFail(m, s, r, started.0, r, "", VersionRunningUnrecorded);
    if started.1 {
      var p0 := Progress(started.0, r, false);
      var q := MigrateSteps(p0, d, 0, rows, complete);
      StepsBooked(m, i, 0, p0, rows, complete);
      BookedTransitive(m, s, r, started.0, r, q.session, q.report);
      var f := FinishVersion(q, d, complete);
      FinishVersionBooked(m, i, q, complete);
      BookedTransitive(m, s, r, q.session, q.report, f.session, f.report);
    }
  }

  lemma VersionBooked(m: Manifest, i: int, s: Session, r: Report)
    requires Distinct(m) && 0 <= i < |m|
    ensures
      var p := MigrateVersion(s, r, m[i]);
      Booked(m, s, r, p.session, p.report)
  {
    hide Booked, Send, MigrateRows, Distinct;
    var d := m[i];
    var read := Send(s, ReadVersion(d.version)).0;
    BookedUnlisted(m, s, r, ReadVersion(d.version));
    BookedFail(m, s, r, read, r, "", VersionUnread);
    BookedFail(m, s, r, read, r, "", VersionRenamed);
    var versions := View(read).versions;
    var complete := d.version in versions && versions[d.version].status == SUCCEEDED;
    RowsBooked(m, i, read, r, complete);
    var p := MigrateRows(read, r, d, complete);
    BookedTransitive(m, s, r, read, r, p.session, p.report);
  }

  lemma {:induction false} VersionsBooked(m: Manifest, k: nat, p: Progress)
    requires Distinct(m) && k <= |m|
    ensures
      var q := MigrateVersions(p, m, k);
      Booked(m, p.session, p.report, q.session, q.report)
    decreases |m| - k
  {
    BookedStill(m, p.session, p.report, p.session, p.report);
    hide Booked, MigrateVersion, Distinct;
    if !p.returned && k < |m| {
      var next := MigrateVersion(p.session, p.report, m[k]);
      VersionBooked(m, k, p.session, p.report);
      VersionsBooked(m, k + 1, next);
      var q := MigrateVersions(next, m, k + 1);
      BookedTransitive(m, p.session, p.report, next.session, next.report, q.session, q.report);
    }
  }

  lemma {:induction false} BootstrapsBooked(m: Manifest, p: Progress, boots: seq<BootstrapStep>, k: nat)
    requires k <= |boots|
    ensures
      var q := Bootstraps(p, boots, k);
      Booked(m, p.session, p.report, q.session, q.report)
    decreases |boots| - k
  {
    var s, r := p.session, p.report;
    BookedStill(m, s, r, s, r);
    hide Booked, Send, StatementScanner.Accepts;
    if !p.returned && k < |boots| {
      var id := boots[k].id;
      BookedFail(m, s, r, s, r, "", BootstrapMultipleStatements);
      var created := Send(s, Bootstrap(id)).0;
      BookedUnlisted(m, s, r, Bootstrap(id));
      BookedFail(m, s, r, created, r, "", MetadataTableFailed);
      var verified := Send(created, VerifyBootstrap(id)).0;
      BookedUnlisted(m, created, r, VerifyBootstrap(id));
      BookedTransitive(m, s, r, created, r, verified, r);
      BookedFail(m, s, r, verified, r, id, MetadataUnverified);
      BookedFail(m, s, r, verified, r, id, MetadataIncompatible);
      var next := Progress(verified, r, false);
      BootstrapsBooked(m, next, boots, k + 1);
      var q := Bootstraps(next, boots, k + 1);
      BookedTransitive(m, s, r, verified, r, q.session, q.report);
    }
  }

  lemma LockedBooked(m: Manifest, s: Session, r: Report, boots: seq<BootstrapStep>)
    requires Distinct(m)
    ensures
      var p := RunLocked(s, r, m, boots);
      Booked(m, s, r, p.session, p.report)
  {
    BookedStill(m, s, r, s, r);
    hide Booked, Bootstraps, MigrateVersions, Distinct;
    BookedFail(m, s, r, s, r, "", BootstrapMissing);
    if boots != [] {
      var p := Bootstraps(Progress(s, r, false), boots, 0);
      BootstrapsBooked(m, Progress(s, r, false), boots, 0);
      var started := p.(report := p.report.(succeeded := true));
      FlagBooked(m, s, r, p.session, p.report);
      var q := MigrateVersions(started, m, 0);
      VersionsBooked(m, 0, started);
      BookedTransitive(m, s, r, started.session, started.report, q.session, q.report);
    }
  }

  lemma FlagBooked(m: Manifest, s: Session, r: Report, t: Session, r': Report)
    requires Booked(m, s, r, t, r')
    ensures Booked(m, s, r, t, r'.(succeeded := true))
  {
    hide Vouched;
  }

  /**
   On every exit path of every run, whatever fails: the report lists as applied exactly the steps
   whose SUCCEEDED record was written and confirmed by the server, in that order; as not to be
   rolled back exactly the DDL steps whose apply statement was sent; and it counts exactly the versions
   recorded SUCCEEDED. No SUCCEEDED record is ever attempted without an answered verify of the
   step before it in the same run, and for a check step that verify was true.
   */
  lemma {:induction false} ReportReadsOffLog(m: Manifest, boots: seq<BootstrapStep>, s: Session)
    requires Distinct(m)
    ensures
      var (t, r) := Run(s, m, boots);
      s.log <= t.log && Vouched(m, s, t) && Of(r) == Read(m, t.log[|s.log|..])
  {
    hide Send, RunLocked, Booked, Distinct, Fail;
    var r := InitialReport(m);
    var acquired := Send(s, GetLock).0;
    BookedUnlisted(m, s, r, GetLock);
    BookedFail(m, s, r, acquired, r, "", LockUnanswered);
    BookedFail(m, s, r, acquired, r, "", LockNotAcquired);
    LockedBooked(m, acquired, r, boots);
    var p := RunLocked(acquired, r, m, boots);
    BookedTransitive(m, s, r, acquired, r, p.session, p.report);
    BookedUnlisted(m, p.session, p.report, ReleaseLock);
    var released := Send(p.session, ReleaseLock).0;
    BookedTransitive(m, s, r, p.session, p.report, released, p.report);
    BookedStill(m, released, p.report, Poison(released), p.report);
    BookedTransitive(m, s, r, released, p.report, Poison(released), p.report);
    BookedFail(m, s, r, Poison(released), p.report, "", ReleaseUnconfirmed);
    BookedFail(m, s, r, released, p.report, "", ReleaseUnconfirmed);
    var end := Run(s, m, boots);
    BookedFromBlank(m, s, r, end.0, end.1);
  }

  lemma BookedFromBlank(m: Manifest, s: Session, r: Report, t: Session, r': Report)
    requires Booked(m, s, r, t, r') && Of(r) == BLANK
    ensures s.log <= t.log && Vouched(m, s, t) && Of(r') == Read(m, t.log[|s.log|..])
  {
    hide Vouched, Of;
    PlusLaws(Read(m, t.log[|s.log|..]), BLANK, BLANK);
  }
}
