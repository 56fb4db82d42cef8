/**
 The metadata tables (migration.cpp:354-375): what a run that goes on to the versions has checked,
 and what a run that does not says and leaves behind.
 */
module MigrationMetadata {
  import opened Sql
  import opened Migration
  import StatementScanner
  import opened MigrationSteps
  import opened MigrationRecovery
  import opened MigrationConvergence
  import opened MigrationReports

  /** Whatever fails: the tables of all files left have been checked when the loop ends by itself. */
  lemma {:induction false} BootstrapsChecked(p: Progress, boots: seq<BootstrapStep>, k: nat)
    requires k <= |boots| && Fit(p.session) && !p.returned
    ensures
      !Bootstraps(p, boots, k).returned ==>
        forall j :: k <= j < |boots| ==> BootPasses(boots[j], p.session.env)
    decreases |boots| - k
  {
    if k < |boots| {
      hide StatementScanner.Accepts, Send;
      var id := boots[k].id;
      ReadStaysFit(p.session, Bootstrap(id));
      var created := Send(p.session, Bootstrap(id));
      if created.1 {
        ReadStaysFit(created.0, VerifyBootstrap(id));
        var verified := Send(created.0, VerifyBootstrap(id));
        if verified.1 {
          BootstrapsChecked(Progress(verified.0, p.report, false), boots, k + 1);
        }
      }
    }
  }

  lemma ReadStaysFit(s: Session, stmt: Statement)
    requires Fit(s) && IsRead(stmt)
    ensures var r := Send(s, stmt); r.0.env == s.env && (r.1 ==> Fit(r.0))
  {
  }

  lemma AllPassBoot(boots: seq<BootstrapStep>, env: Environment)
    requires boots != [] && forall j :: 0 <= j < |boots| ==> BootPasses(boots[j], env)
    ensures Bootable(boots, env)
  {
  }

  lemma LockedOnlyBooted(m: Manifest, boots: seq<BootstrapStep>, s: Session, r: Report)
    requires Fit(s)
    ensures
      var p := RunLocked(s, r, m, boots);
      !Bootable(boots, s.env) ==> p.returned && p.session.db == s.db
  {
    hide Bootstraps, MigrateVersions, BootPasses, OnlyReads;
    if boots != [] {
      var p0 := Progress(s, r, false);
      BootstrapsRead(p0, boots, 0);
      BootstrapsChecked(p0, boots, 0);
      ReadsKeepRows(s, Bootstraps(p0, boots, 0).session);
      if !Bootstraps(p0, boots, 0).returned {
        AllPassBoot(boots, s.env);
      }
    }
  }

  lemma ReadsKeepRows(s: Session, t: Session)
    requires OnlyReads(s, t)
    ensures t.db == s.db
  {
  }

  /** What the report says of the first file that does not pass. */
  function Refusal(b: BootstrapStep, r: Report): Report {
    if StatementScanner.Accepts(b.applySql) && StatementScanner.Accepts(b.verifySql) then
      Fail(r, b.id, MetadataIncompatible)
    else Fail(r, "", BootstrapMultipleStatements)
  }

  lemma {:induction false} FirstRefused(p: Progress, boots: seq<BootstrapStep>, k: nat, n: nat)
    requires k <= n < |boots| && Faultless(p.session) && !p.returned
    requires forall j :: k <= j < n ==> BootPasses(boots[j], p.session.env)
    requires !BootPasses(boots[n], p.session.env)
    ensures
      var q := Bootstraps(p, boots, k);
      q.returned && q.report == Refusal(boots[n], p.report) && |q.session.log| <= |p.session.log| + 2 * (n - k + 1)
    decreases n - k
  {
    hide StatementScanner.Accepts, Send;
    var id := boots[k].id;
    AnsweredSend(p.session, Bootstrap(id));
    var created := Send(p.session, Bootstrap(id)).0;
    AnsweredSend(created, VerifyBootstrap(id));
    var verified := Send(created, VerifyBootstrap(id)).0;
    if k < n {
      FirstRefused(Progress(verified, p.report, false), boots, k + 1, n);
    }
  }

  /**
   A database that answers, and a bootstrap file that does not pass: the run names the first such
   file when its table is to blame, has sent nothing but bootstrap statements of the files up to it
   between the lock statements, and has written no row.
   */
  lemma {:induction false} MetadataRefused(m: Manifest, boots: seq<BootstrapStep>, s: Session, n: nat)
    requires Fit(s) && Faultless(s) && !s.env.lockTaken && n < |boots|
    requires forall j :: 0 <= j < n ==> BootPasses(boots[j], s.env)
    requires !BootPasses(boots[n], s.env)
    ensures
      var (t, r) := Run(s, m, boots);
      t.db == s.db && r == Refusal(boots[n], InitialReport(m)) && |t.log| <= |s.log| + 2 * n + 4
  {
    hide Send, Bootstraps, MigrateVersions, BootPasses, Refusal, OnlyReads, InitialReport;
    AnsweredSend(s, GetLock);
    var s1 := Send(s, GetLock).0;
    var p0 := Progress(s1, InitialReport(m), false);
    FirstRefused(p0, boots, 0, n);
    BootstrapsRead(p0, boots, 0);
    var q := Bootstraps(p0, boots, 0).session;
    ReadsKeepRows(s1, q);
    LockSent(q);
  }

  lemma LockSent(s: Session)
    ensures Release(s).0.db == s.db && |Release(s).0.log| == |s.log| + 1
  {
  }
}
