/**
 Exactly which manifests have reports that partition their required ids on every exit path:
 removePending (migration.cpp:276-280) matches by id only, and discovery compares ids within a
 version only (migration.cpp:172-177).
 */
module MigrationPartition {
  import opened Sql
  import opened Migration
  import opened MigrationSteps
  import opened MigrationRecovery
  import opened MigrationReports
  import opened MigrationLocks
  import opened MigrationConvergence
  import opened MigrationCrossCheck
  import MigrationDiscovery

  predicate Partitions(m: Manifest, r: Report) {
    multiset(r.applied) + multiset(r.alreadyComplete) + multiset(r.pending) == multiset(Required(m))
  }

  lemma {:induction false} RequiredOfIds(steps: seq<Step>)
    requires DistinctIds(steps)
    ensures NoRepeats(RequiredOf(steps))
    ensures forall id :: id in RequiredOf(steps) ==> exists step :: step in steps && step.id == id
  {
    if steps != [] {
      var rest := steps[1..];
      RequiredOfIds(rest);
      var ids := RequiredOf(steps);
      forall id | id in ids
        ensures exists step :: step in steps && step.id == id
      {
        if id in RequiredOf(rest) {
          var step :| step in rest && step.id == id;
          assert step in steps;
        } else {
          assert steps[0] in steps && steps[0].id == id;
        }
      }
      assert forall k :: 0 <= k < |rest| ==> rest[k] == steps[k + 1] && rest[k].id != steps[0].id;
      assert forall step :: step in rest ==> step.id != steps[0].id;
      assert steps[0].id !in RequiredOf(rest);
    }
  }

  /** Some version n begins with a required id still to come that an earlier version has as well. */
  predicate RepeatsAt(m: Manifest, n: int, id: string) {
    0 <= n < |m| && Required(m[..n]) <= Required(m) &&
    id in Required(m[..n]) && id in Required(m)[|Required(m[..n])|..]
  }

  lemma {:induction false} FindRepeat(m: Manifest, n: nat) returns (k: nat, id: string)
    requires Distinct(m) && n <= |m| && !NoRepeats(Required(m[..n]))
    ensures RepeatsAt(m, k, id)
  {
    assert m[..0] == [];
    if n == 0 {
      assert false;
    } else {
      var before, now := Required(m[..n - 1]), Required(m[..n]);
      assert m[..n - 1] + [m[n - 1]] == m[..n];
      RequiredAppends(m[..n - 1], m[n - 1]);
      RequiredPrefix(m, n - 1);
      RequiredPrefix(m, n);
      if NoRepeats(before) {
        var i, j :| 0 <= i < j < |now| && now[i] == now[j];
        RequiredOfIds(m[n - 1].steps);
        AcrossVersions(before, RequiredOf(m[n - 1].steps), i, j);
        LaterId(Required(m), |before|, j);
        k, id := n - 1, now[j];
      } else {
        k, id := FindRepeat(m, n - 1);
      }
    }
  }

  lemma AcrossVersions(before: seq<string>, added: seq<string>, i: nat, j: nat)
    requires NoRepeats(before) && NoRepeats(added)
    requires i < j < |before + added| && (before + added)[i] == (before + added)[j]
    ensures i < |before| <= j
  {
    var now := before + added;
    assert forall a, b :: |before| <= a < b < |now| ==> now[a] == added[a - |before|] && now[a] != now[b];
  }

  lemma LaterId(ids: seq<string>, n: nat, j: nat)
    requires n <= j < |ids|
    ensures ids[j] in ids[n..]
  {
    assert ids[n..][j - n] == ids[j];
  }

  /** Versions i to n - 1 are run, and the run ends at version n, which has been renamed. */
  lemma {:induction false} StopsAt(m: Manifest, i: nat, n: nat, p: Progress)
    requires Between(m, i, p.session) && !p.returned && Faultless(p.session) && ChecksHold(m, p.session.env)
    requires i <= n < |m| && forall k :: i <= k < n ==> Passes(m, k, p.session.db)
    requires m[n].version in p.session.db.versions && p.session.db.versions[m[n].version].name != m[n].name
    requires Tally(m, Required(m[..i]), i, p.report)
    ensures
      var q := MigrateVersions(p, m, i);
      q.returned && Tally(m, Required(m[..n]), n, q.report)
    decreases n - i
  {
    hide ChecksHold, Tally, Passes, MigrateRows;
    var next := MigrateVersion(p.session, p.report, m[i]);
    if i < n {
      hide MigrateVersion, Elsewhere, ExactBefore;
      VersionAnswer(m, i, p.session, p.report);
      VersionChecked(m, i, p.session, p.report);
      VersionTally(m, i, p.session, p.report);
      VersionFrame(p.session, p.report, m[i]);
      OthersUntouched(m, i, n, p.session.db, next.session.db);
      StopsAt(m, i + 1, n, next);
    } else {
      RenamedStops(m, n, p.session, p.report);
      FailTally(m, Required(m[..n]), n, p.report, VersionRenamed);
    }
  }

  lemma OthersUntouched(m: Manifest, i: nat, n: nat, db: Database, db': Database)
    requires Distinct(m) && i < n < |m| && Elsewhere(db, db', m[i].version)
    requires m[n].version in db.versions && db.versions[m[n].version].name != m[n].name
    requires forall k :: i < k < n ==> Passes(m, k, db)
    ensures m[n].version in db'.versions && db'.versions[m[n].version].name != m[n].name
    ensures forall k :: i < k < n ==> Passes(m, k, db')
  {
    hide Passes;
    forall k | i < k < n
      ensures Passes(m, k, db')
    {
      PassesElsewhere(m, i, k, db, db');
    }
  }

  lemma RenamedStops(m: Manifest, n: nat, s: Session, r: Report)
    requires n < |m| && Fit(s) && Faultless(s)
    requires m[n].version in s.db.versions && s.db.versions[m[n].version].name != m[n].name
    ensures
      var p := MigrateVersion(s, r, m[n]);
      p.returned && p.report == Fail(r, "", VersionRenamed)
  {
    hide Send, MigrateRows;
    AnsweredSend(s, ReadVersion(m[n].version));
    SendAlone(s, ReadVersion(m[n].version));
  }

  /** Nothing is recorded but version n, under another name; every check step finds its target state. */
  ghost function Renamed(m: Manifest, n: nat): Session
    requires n < |m|
  {
    var keys := set i, j | 0 <= i < |m| && 0 <= j < |m[i].steps| :: KeyAt(m, i, j);
    Open(EMPTY_DATABASE.(versions := map[m[n].version := VersionRow(m[n].name + "x", RUNNING)]),
         [], Environment(false, {}, keys))
  }

  lemma RenamedClear(m: Manifest, n: nat)
    requires Distinct(m) && n < |m|
    ensures Clear(m, Renamed(m, n)) && Bootable(MigrationDiscovery.BOOTS, Renamed(m, n).env)
    ensures forall k :: 0 <= k < n ==> Passes(m, k, Renamed(m, n).db)
  {
    MigrationDiscovery.OneCharacterAccepted();
    var s := Renamed(m, n);
    forall i, j | IsRequired(m, i, j) && m[i].steps[j].execution.Check?
      ensures KeyAt(m, i, j) in s.env.checks
    {
    }
    forall k | 0 <= k < n
      ensures Passes(m, k, s.db)
    {
      assert RowsOf(s.db, m[k].version) == map[];
    }
  }

  /** A run that stops at version n reports as pending none of the ids that an earlier version has. */
  lemma RenamedReport(m: Manifest, n: nat)
    requires Distinct(m) && n < |m|
    ensures Tally(m, Required(m[..n]), n, Run(Renamed(m, n), m, MigrationDiscovery.BOOTS).1)
  {
    hide Send, Bootstraps, MigrateVersions, Tally, Passes, ChecksHold, Bootable, Renamed;
    var boots, s, r := MigrationDiscovery.BOOTS, Renamed(m, n), InitialReport(m);
    RenamedClear(m, n);
    RenamedRow(m, n);
    AnsweredSend(s, GetLock);
    var s1 := Send(s, GetLock).0;
    var p0 := Progress(s1, r, false);
    BootstrapsRead(p0, boots, 0);
    BootstrapsFrame(p0, boots, 0);
    BootstrapsConverge(p0, boots, 0);
    var q := Bootstraps(p0, boots, 0);
    var started := q.(report := q.report.(succeeded := true));
    InitialTally(m);
    FlagTally(m, [], 0, r);
    assert m[..0] == [] && Required(m[..0]) == [] by { NothingRequired(); }
    StopsAt(m, 0, n, started);
  }

  lemma RenamedRow(m: Manifest, n: nat)
    requires n < |m|
    ensures
      var db := Renamed(m, n).db;
      m[n].version in db.versions && db.versions[m[n].version].name != m[n].name
  {
  }

  /**
   The reports of a manifest partition its required ids on every exit path of every run, if and
   only if no required id occurs twice; distinct ids within each version are not enough.
   */
  lemma {:induction false} PartitionsExactly(m: Manifest)
    requires Distinct(m)
    ensures (forall s, boots :: Partitions(m, Run(s, m, boots).1)) <==> NoRepeats(Required(m))
  {
    hide Run, Tally, Required;
    if NoRepeats(Required(m)) {
      forall s, boots
        ensures Partitions(m, Run(s, m, boots).1)
      {
        PartitionOnEveryExit(s, m, boots);
      }
    } else {
      assert m[..|m|] == m;
      var n, id := FindRepeat(m, |m|);
      RenamedReport(m, n);
      var r := Run(Renamed(m, n), m, MigrationDiscovery.BOOTS).1;
      Partition(m, Required(m[..n]), n, r);
      assert !Partitions(m, r);
    }
  }

  // ---- What the lists start with ----

  lemma {:induction false} ListedOf(steps: seq<Step>, id: string)
    ensures id in RequiredOf(steps) <==> exists k :: 0 <= k < |steps| && steps[k].id == id && !steps[k].phase.Cleanup?
    ensures id in CleanupOf(steps) <==> exists k :: 0 <= k < |steps| && steps[k].id == id && steps[k].phase.Cleanup?
    ensures |RequiredOf(steps)| + |CleanupOf(steps)| == |steps|
  {
    if steps != [] {
      var rest := steps[1..];
      ListedOf(rest, id);
      assert forall k :: 0 < k < |steps| ==> steps[k] == rest[k - 1];
      assert forall k :: 0 <= k < |rest| ==> rest[k] == steps[k + 1];
    }
  }

  /** All steps of a manifest. */
  function Size(m: Manifest): nat {
    if m == [] then 0 else |m[0].steps| + Size(m[1..])
  }

  /**
   A report starts with every step in exactly one of two lists: as pending if a run must complete it, and
   as deferred if it is a cleanup, however ids are shared.
   */
  lemma {:induction false} ListedExactly(m: Manifest, id: string)
    ensures id in InitialReport(m).pending <==> exists i, j :: IsRequired(m, i, j) && m[i].steps[j].id == id
    ensures id in InitialReport(m).deferredCleanup <==>
      exists i, j :: Valid(m, i, j) && m[i].steps[j].phase.Cleanup? && m[i].steps[j].id == id
    ensures |InitialReport(m).pending| + |InitialReport(m).deferredCleanup| == Size(m)
  {
    if m != [] {
      var rest := m[1..];
      ListedExactly(rest, id);
      ListedOf(m[0].steps, id);
      forall i, j | Valid(rest, i, j)
        ensures Valid(m, i + 1, j) && m[i + 1].steps[j] == rest[i].steps[j]
      {
      }
      forall i, j | Valid(m, i, j) && i > 0
        ensures Valid(rest, i - 1, j) && m[i].steps[j] == rest[i - 1].steps[j]
      {
      }
      if exists k :: 0 <= k < |m[0].steps| && m[0].steps[k].id == id {
        var k :| 0 <= k < |m[0].steps| && m[0].steps[k].id == id;
        assert Valid(m, 0, k);
      }
    }
  }
}
