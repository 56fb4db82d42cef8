/**
 A history in which an apply statement takes effect twice: the record of a finished step is lost,
 and the recovery verify of the next run fails on a connection that stays usable
 (migration.cpp:446-457 and 517-521).
 */
module MigrationRepeats {
  import opened Sql
  import opened Migration
  import opened MigrationSteps
  import opened MigrationRecovery
  import opened MigrationRuns
  import opened MigrationDiscovery

  const ONE_VERSION: Manifest := [Definition(1, "x", [SHARED])]

  const KEY := StepKey(1, "a")

  const QUIET := Environment(false, {}, {})

  /** The step has run and is verified, and the connection is lost with the write of SUCCEEDED. */
  const RECORD_LOST := Attempt(BOOTS, QUIET,
    [Answered, Answered, Answered, Answered, Answered, Answered, Answered, Answered, Answered, Failed(false, true)])

  /** The first statement to fail is the recovery verify, and the connection stays usable. */
  const VERIFY_UNANSWERED := Attempt(BOOTS, QUIET,
    [Answered, Answered, Answered, Answered, Answered, Answered, Failed(false, false)])

  const INTERRUPTED := EMPTY_DATABASE.(
    versions := map[1 := VersionRow("x", RUNNING)],
    steps := map[KEY := RecordOf(SHARED, RUNNING)],
    effects := multiset{KEY})

  /** From GET_LOCK to the RUNNING row of the version. */
  function Opening(s: Session): Session {
    var s1 := Send(s, GetLock).0;
    var s3 := Send(Send(s1, Bootstrap("b")).0, VerifyBootstrap("b")).0;
    var s5 := Send(Send(s3, ReadVersion(1)).0, ReadSteps(1)).0;
    Send(s5, WriteVersion(1, VersionRow("x", RUNNING))).0
  }

  predicate SixAnswered(fates: seq<Fate>) {
    |fates| >= 6 && forall i :: 0 <= i < 6 ==> fates[i] == Answered
  }

  lemma NextAnswered(s: Session, stmt: Statement)
    requires !s.poisoned && s.fates != [] && s.fates[0].Answered?
    ensures Send(s, stmt) ==
      (Effect(s, stmt).(fates := s.fates[1..], log := s.log + [Event(stmt, Answered)]), true)
  {
  }

  lemma OpeningAnswered(s: Session)
    requires Fit(s) && SixAnswered(s.fates) && s.env == QUIET
    ensures
      var t := Opening(s);
      Fit(t) && t.locked && t.env == QUIET && t.fates == s.fates[6..] &&
      t.db == s.db.(versions := s.db.versions[1 := VersionRow("x", RUNNING)])
  {
    hide Send;
    NextAnswered(s, GetLock);
    var s1 := Send(s, GetLock).0;
    NextAnswered(s1, Bootstrap("b"));
    var s2 := Send(s1, Bootstrap("b")).0;
    NextAnswered(s2, VerifyBootstrap("b"));
    var s3 := Send(s2, VerifyBootstrap("b")).0;
    NextAnswered(s3, ReadVersion(1));
    var s4 := Send(s3, ReadVersion(1)).0;
    NextAnswered(s4, ReadSteps(1));
    var s5 := Send(s4, ReadSteps(1)).0;
    NextAnswered(s5, WriteVersion(1, VersionRow("x", RUNNING)));
  }

  /** The rows that a run of the manifest may find. */
  predicate Found(db: Database, rows: map<string, StepRow>) {
    (1 in db.versions ==> db.versions[1] == VersionRow("x", RUNNING)) &&
    rows == RowsOf(db, 1) && Matches(rows, ONE_VERSION[0])
  }

  /** The part of the run in which its one step is handled. */
  function Handled(s: Session, rows: map<string, StepRow>): Progress {
    MigrateStep(Opening(s), InitialReport(ONE_VERSION).(succeeded := true), ONE_VERSION[0], SHARED, rows, false)
  }

  lemma RunIsHandled(s: Session, rows: map<string, StepRow>)
    requires Fit(s) && SixAnswered(s.fates) && s.env == QUIET && Found(s.db, rows)
    ensures
      var p := Handled(s, rows);
      Run(s, ONE_VERSION, BOOTS).0 == Release(FinishVersion(p, ONE_VERSION[0], false).session).0
  {
    hide Send, MigrateStep, FinishVersion, Matches, RowsOf, Required, Deferred, Release;
    var m, d, r := ONE_VERSION, ONE_VERSION[0], InitialReport(ONE_VERSION);
    NextAnswered(s, GetLock);
    var s1 := Send(s, GetLock).0;
    NextAnswered(s1, Bootstrap("b"));
    var s2 := Send(s1, Bootstrap("b")).0;
    NextAnswered(s2, VerifyBootstrap("b"));
    var s3 := Send(s2, VerifyBootstrap("b")).0;
    BootsPass(s1, r);
    NextAnswered(s3, ReadVersion(1));
    var s4 := Send(s3, ReadVersion(1)).0;
    NextAnswered(s4, ReadSteps(1));
    var s5 := Send(s4, ReadSteps(1)).0;
    NextAnswered(s5, WriteVersion(1, VersionRow("x", RUNNING)));
    var r1 := r.(succeeded := true);
    var p := Handled(s, rows);
    OneStep(Opening(s), r1, rows);
    assert MigrateVersion(s3, r1, d) == FinishVersion(p, d, false);
    assert MigrateVersions(Progress(s3, r1, false), m, 0) == MigrateVersions(FinishVersion(p, d, false), m, 1);
  }

  lemma OneStep(s: Session, r: Report, rows: map<string, StepRow>)
    ensures MigrateSteps(Progress(s, r, false), ONE_VERSION[0], 0, rows, false) ==
      MigrateStep(s, r, ONE_VERSION[0], SHARED, rows, false)
  {
    hide MigrateStep;
    var p := MigrateStep(s, r, ONE_VERSION[0], SHARED, rows, false);
    assert MigrateSteps(p, ONE_VERSION[0], 1, rows, false) == p;
  }

  /** The step is applied and verified, and its SUCCEEDED record lost with the connection. */
  lemma StepInterrupted(s: Session, r: Report)
    requires Fit(s) && s.fates == [Answered, Answered, Answered, Failed(false, true)]
    requires s.db == EMPTY_DATABASE.(versions := map[1 := VersionRow("x", RUNNING)])
    ensures
      var p := MigrateStep(s, r, ONE_VERSION[0], SHARED, map[], false);
      p.returned && p.session.db == INTERRUPTED
  {
    hide Send;
    NextAnswered(s, WriteStep(KEY, RecordOf(SHARED, RUNNING)));
    var s1 := Send(s, WriteStep(KEY, RecordOf(SHARED, RUNNING))).0;
    NextAnswered(s1, Apply(KEY));
    var s2 := Send(s1, Apply(KEY)).0;
    NextAnswered(s2, Verify(KEY, false));
    var s3 := Send(s2, Verify(KEY, false)).0;
    NextLost(s3, WriteStep(KEY, RecordOf(SHARED, SUCCEEDED)));
    assert s3.db == INTERRUPTED;
  }

  lemma NextLost(s: Session, stmt: Statement)
    requires !s.poisoned && s.fates != [] && s.fates[0] == Failed(false, true)
    ensures !Send(s, stmt).1 && Send(s, stmt).0.db == s.db
  {
  }

  lemma NoRows()
    ensures RowsOf(EMPTY_DATABASE, 1) == map[] && Matches(map[], ONE_VERSION[0])
  {
  }

  lemma FirstRun()
    ensures Close(SessionOf(ONE_VERSION, RECORD_LOST, EMPTY_DATABASE)) == INTERRUPTED
  {
    hide Send, Run, MigrateStep, Opening, Release, Matches, RowsOf;
    var s, rows := Open(EMPTY_DATABASE, RECORD_LOST.fates, QUIET), RowsOf(EMPTY_DATABASE, 1);
    NoRows();
    RunIsHandled(s, rows);
    OpeningAnswered(s);
    StepInterrupted(Opening(s), InitialReport(ONE_VERSION).(succeeded := true));
    ReleaseKeepsRows(Handled(s, rows).session);
  }

  lemma ReleaseKeepsRows(s: Session)
    ensures Release(s).0.db == s.db && s.log <= Release(s).0.log
  {
  }

  /** The recovery verify is not answered, and the step is applied once more. */
  lemma StepRepeated(s: Session, r: Report, rows: map<string, StepRow>)
    requires Fit(s) && s.fates == [Failed(false, false)] && s.db == INTERRUPTED
    requires "a" in rows && rows["a"].status == RUNNING
    ensures
      var p := MigrateStep(s, r, ONE_VERSION[0], SHARED, rows, false);
      !p.returned && Fit(p.session) && Faultless(p.session) && p.session.db.effects[KEY] == 2 &&
      |s.log| < |p.session.log| && Blind(p.session.log[|s.log|])
  {
    hide Send, ExecuteStep;
    var d := ONE_VERSION[0];
    RepeatedExactlyWhenBlind(s, r, d, SHARED);
    VerifySilent(s);
    var s1 := Send(s, Verify(KEY, true)).0;
    AnsweredExecution(s1, r, d, SHARED);
    ExecuteFrame(s1, r, d, SHARED);
    assert ExecuteStep(s1, r, d, SHARED).session.log[|s.log|] == s1.log[|s.log|];
  }

  lemma VerifySilent(s: Session)
    requires Fit(s) && s.fates == [Failed(false, false)]
    ensures
      var t := Send(s, Verify(KEY, true));
      !t.1 && t.0 == s.(fates := [], log := s.log + [Event(Verify(KEY, true), Failed(false, false))])
  {
  }

  lemma SecondRun()
    ensures
      var t := SessionOf(ONE_VERSION, VERIFY_UNANSWERED, INTERRUPTED);
      Close(t).effects[KEY] == 2 && !Attended(t)
  {
    hide Send, Run, MigrateStep, Opening, Release, Matches;
    var s, rows := Open(INTERRUPTED, VERIFY_UNANSWERED.fates, QUIET), RowsOf(INTERRUPTED, 1);
    InterruptedRows();
    RunIsHandled(s, rows);
    OpeningAnswered(s);
    StepRepeated(Opening(s), InitialReport(ONE_VERSION).(succeeded := true), rows);
    var p := Handled(s, rows);
    var stmt := WriteVersion(1, VersionRow("x", SUCCEEDED));
    AnsweredSend(p.session, stmt);
    LogGrows(p.session, stmt);
    var f := FinishVersion(p, ONE_VERSION[0], false).session;
    ReleaseKeepsRows(f);
    var k := |Opening(s).log|;
    assert Release(f).0.log[k] == f.log[k] == p.session.log[k];
  }

  lemma LogGrows(s: Session, stmt: Statement)
    ensures s.log <= Send(s, stmt).0.log
  {
  }

  lemma InterruptedRows()
    ensures
      var rows := RowsOf(INTERRUPTED, 1);
      "a" in rows && rows["a"] == RecordOf(SHARED, RUNNING) && Matches(rows, ONE_VERSION[0])
  {
    assert KEY in INTERRUPTED.steps;
    var rows := RowsOf(INTERRUPTED, 1);
    assert SHARED in ONE_VERSION[0].steps;
  }

  /**
   From empty tables two runs can apply one step twice; the second is one in which a recovery
   verify got no answer, as RepeatedExactlyWhenBlind demands.
   */
  lemma {:induction false} AppliedTwice()
    ensures Distinct(ONE_VERSION)
    ensures
      var history := [RECORD_LOST, VERIFY_UNANSWERED];
      After(ONE_VERSION, history, EMPTY_DATABASE).effects[KeyAt(ONE_VERSION, 0, 0)] == 2 &&
      !AllAttended(ONE_VERSION, history, EMPTY_DATABASE)
  {
    hide SessionOf, Attended;
    FirstRun();
    SecondRun();
    var m, history := ONE_VERSION, [RECORD_LOST, VERIFY_UNANSWERED];
    assert history[1..] == [VERIFY_UNANSWERED] && history[1..][1..] == [];
    var last := Close(SessionOf(m, VERIFY_UNANSWERED, INTERRUPTED));
    assert After(m, [], last) == last;
    assert After(m, history[1..], INTERRUPTED) == last;
  }
}
