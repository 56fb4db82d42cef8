/**
 Histories over several releases: between two runs the manifest may grow by versions appended at
 its end (migration.cpp:378-536 with the order of migration.cpp:180-185).
 */
module MigrationReleases {
  import opened Sql
  import opened Migration
  import opened MigrationSteps
  import opened MigrationRecovery
  import opened MigrationRuns
  import opened MigrationCrossCheck

  /** One start of the program, with the manifest of its release. */
  datatype Deployment = Deployment(manifest: Manifest, attempt: Attempt)

  /** Every release keeps the versions of the one before and may append others. */
  predicate Growing(m: Manifest, ds: seq<Deployment>)
    decreases |ds|
  {
    ds == [] || (m <= ds[0].manifest && Distinct(ds[0].manifest) && Growing(ds[0].manifest, ds[1..]))
  }

  function Latest(m: Manifest, ds: seq<Deployment>): Manifest
    decreases |ds|
  {
    if ds == [] then m else Latest(ds[0].manifest, ds[1..])
  }

  function Ended(d: Deployment, db: Database): Session {
    SessionOf(d.manifest, d.attempt, db)
  }

  function Deployed(ds: seq<Deployment>, db: Database): Database {
    if ds == [] then db else Deployed(ds[1..], Close(Ended(ds[0], db)))
  }

  ghost predicate EachAttended(ds: seq<Deployment>, db: Database) {
    ds == [] || (Attended(Ended(ds[0], db)) && EachAttended(ds[1..], Close(Ended(ds[0], db))))
  }

  /** Nothing is recorded for versions that the manifest does not have. */
  ghost predicate Only(m: Manifest, db: Database) {
    (forall key: StepKey :: !Names(m, key.version) ==> key !in db.steps && db.effects[key] == 0) &&
    (forall v: nat :: !Names(m, v) ==> v !in db.versions)
  }

  lemma RunLeavesOnly(m: Manifest, db: Database, db': Database)
    requires Only(m, db) && Foreign(m, db, db')
    ensures Only(m, db')
  {
    hide Names;
  }

  lemma NewVersion(m: Manifest, m': Manifest, i: int)
    requires m <= m' && Distinct(m') && |m| <= i < |m'|
    ensures !Names(m, m'[i].version)
  {
    forall k | 0 <= k < |m|
      ensures m[k].version != m'[i].version
    {
      assert m[k] == m'[k];
    }
  }

  lemma OldVersion(m: Manifest, m': Manifest, v: nat)
    requires m <= m' && Names(m, v)
    ensures Names(m', v)
  {
    var k :| 0 <= k < |m| && m[k].version == v;
    assert m'[k] == m[k];
  }

  lemma DoneBeforeGrows(m: Manifest, m': Manifest, db: Database, i: int, j: int)
    requires m <= m' && 0 <= i < |m| && DoneBefore(m, db, i, j)
    ensures DoneBefore(m', db, i, j)
  {
    forall i', j' | IsRequired(m', i', j') && Earlier(i', j', i, j)
      ensures Succeeded(db, KeyAt(m', i', j'))
    {
      assert m'[i'] == m[i'] && IsRequired(m, i', j');
      assert Succeeded(db, KeyAt(m, i', j'));
    }
  }

  /** Appended versions have no records yet, so the invariant holds for the larger manifest. */
  lemma Appended(m: Manifest, m': Manifest, db: Database)
    requires m <= m' && Distinct(m') && Consistent(m, db) && Only(m, db)
    ensures Consistent(m', db) && Only(m', db) && (Once(m, db) ==> Once(m', db))
  {
    hide Names;
    forall i, j | Valid(m', i, j)
      ensures StepOk(m', db, i, j) && (Once(m, db) ==> db.effects[KeyAt(m', i, j)] <= 1)
    {
      if i < |m| {
        assert m'[i] == m[i] && Valid(m, i, j) && StepOk(m, db, i, j);
        assert KeyAt(m', i, j) == KeyAt(m, i, j);
        if KeyAt(m, i, j) in db.steps {
          DoneBeforeGrows(m, m', db, i, j);
        }
      } else {
        NewVersion(m, m', i);
      }
    }
    forall i | 0 <= i < |m'|
      ensures VersionOk(m', db, i)
    {
      if i < |m| {
        assert m'[i] == m[i] && VersionOk(m, db, i);
        if VersionDone(db, m[i].version) {
          DoneBeforeGrows(m, m', db, i, |m[i].steps|);
        }
      } else {
        NewVersion(m, m', i);
      }
    }
    forall v | !Names(m', v)
      ensures !Names(m, v)
    {
      if Names(m, v) {
        OldVersion(m, m', v);
      }
    }
  }

  /**
   Every history of releases, each run interrupted anywhere: records stay consistent with the
   latest manifest, nothing recorded SUCCEEDED is taken back, and no apply takes effect twice.
   */
  lemma {:induction false} EveryRelease(m: Manifest, ds: seq<Deployment>, db: Database)
    requires Distinct(m) && Growing(m, ds) && Consistent(m, db) && Only(m, db)
    ensures
      var last, db' := Latest(m, ds), Deployed(ds, db);
      Consistent(last, db') && Only(last, db') && Advances(db, db') &&
      (Once(m, db) && EachAttended(ds, db) ==> Once(last, db'))
    decreases |ds|
  {
    if ds == [] {
      assert Advances(db, db);
    } else {
      hide Run, Consistent, Once, Advances, Only, Foreign, RowsExact;
      var d := ds[0];
      Appended(m, d.manifest, db);
      var s := Open(db, d.attempt.fates, d.attempt.env);
      RunKeeps(d.manifest, d.attempt.boots, s);
      SuccessIsExact(d.manifest, d.attempt.boots, s);
      RunLeavesOnly(d.manifest, db, Close(Ended(d, db)));
      EveryRelease(d.manifest, ds[1..], Close(Ended(d, db)));
      AdvancesTransitive(db, Close(Ended(d, db)), Deployed(ds, db));
    }
  }

  /** From empty tables no step of any release is applied twice, whatever was released in between. */
  lemma {:induction false} AtMostOnceOverReleases(ds: seq<Deployment>, i: int, j: int)
    requires Growing([], ds) && EachAttended(ds, EMPTY_DATABASE) && Valid(Latest([], ds), i, j)
    ensures Deployed(ds, EMPTY_DATABASE).effects[KeyAt(Latest([], ds), i, j)] <= 1
  {
    hide Deployed, EachAttended, Growing, Latest;
    EmptyConsistent([]);
    EveryRelease([], ds, EMPTY_DATABASE);
  }
}
