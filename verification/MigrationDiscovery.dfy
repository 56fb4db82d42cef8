/**
 The ordering and duplicate checks of discoverMigrations (migration.cpp:168-185), which give a
 run its distinct versions and step ids, and what they do not give.
 */
module MigrationDiscovery {
  import opened Wrappers
  import opened Sql
  import opened StepChecksum
  import opened Migration
  import StatementScanner
  import opened MigrationRecovery

  /** The order of std::string. */
  predicate Before(a: string, b: string) {
    b != "" && (a == "" || a[0] < b[0] || (a[0] == b[0] && Before(a[1..], b[1..])))
  }

  lemma {:induction false} BeforeIsOrder(a: string, b: string, c: string)
    ensures !Before(a, a)
    ensures Before(a, b) || Before(b, a) || a == b
    ensures Before(a, b) && Before(b, c) ==> Before(a, c)
  {
    if a != "" && b != "" {
      BeforeIsOrder(a[1..], b[1..], if c == "" then c else c[1..]);
      assert a == [a[0]] + a[1..] && b == [b[0]] + b[1..];
    } else if a != "" {
      BeforeIsOrder(a[1..], b, c);
    }
  }

  /** What sorting leaves: no step stands directly before a smaller one. */
  predicate SortedSteps(steps: seq<Step>) {
    forall k :: 0 < k < |steps| ==> !Before(steps[k].id, steps[k - 1].id)
  }

  predicate AdjacentDiffer(steps: seq<Step>, n: int)
    requires n <= |steps|
  {
    forall k :: 0 < k < n ==> steps[k - 1].id != steps[k].id
  }

  lemma {:induction false} StrictlySorted(steps: seq<Step>, j: nat, k: nat)
    requires SortedSteps(steps) && AdjacentDiffer(steps, |steps|) && j < k < |steps|
    ensures Before(steps[j].id, steps[k].id)
    decreases k - j
  {
    BeforeIsOrder(steps[k].id, steps[k - 1].id, "");
    assert Before(steps[k - 1].id, steps[k].id);
    if j < k - 1 {
      StrictlySorted(steps, j, k - 1);
      BeforeIsOrder(steps[j].id, steps[k - 1].id, steps[k].id);
    }
  }

  /** On sorted steps, comparing neighbours finds every duplicate. */
  lemma NeighboursSuffice(steps: seq<Step>)
    requires SortedSteps(steps)
    ensures AdjacentDiffer(steps, |steps|) <==> DistinctIds(steps)
  {
    if AdjacentDiffer(steps, |steps|) {
      forall j, k | 0 <= j < k < |steps| ensures steps[j].id != steps[k].id {
        StrictlySorted(steps, j, k);
        BeforeIsOrder(steps[j].id, steps[k].id, "");
      }
    }
  }

  method DuplicateStep(steps: seq<Step>) returns (duplicate: Option<string>)
    requires SortedSteps(steps)
    ensures duplicate.None? <==> DistinctIds(steps)
    ensures duplicate.Some? ==> exists j, k :: 0 <= j < k < |steps| &&
                                  steps[j].id == steps[k].id == duplicate.value
  {
    NeighboursSuffice(steps);
    var index := 1;
    while index < |steps|
      invariant 1 <= index
      invariant index <= |steps| ==> AdjacentDiffer(steps, index)
      invariant index > |steps| ==> |steps| == 0
    {
      if steps[index - 1].id == steps[index].id {
        return Some(steps[index].id);
      }
      index := index + 1;
    }
    return None;
  }

  method DuplicateVersion(defs: seq<Definition>) returns (found: bool)
    requires forall i :: 0 < i < |defs| ==> defs[i - 1].version <= defs[i].version
    ensures !found <==> forall i, j :: 0 <= i < j < |defs| ==> defs[i].version != defs[j].version
  {
    var i := 1;
    while i < |defs|
      invariant 1 <= i && (i > |defs| ==> |defs| == 0)
      invariant forall j, k :: 0 <= j < k < i && k < |defs| ==> defs[j].version < defs[k].version
    {
      if defs[i - 1].version == defs[i].version {
        return true;
      }
      i := i + 1;
    }
    return false;
  }

  const SHARED := Step("a", Expand, AtomicDdl, "c")

  const TWO_VERSIONS: Manifest := [Definition(1, "x", [SHARED]), Definition(2, "y", [SHARED])]

  /** The first version is finished. */
  const HALF_DONE := EMPTY_DATABASE.(
    versions := map[1 := VersionRow("x", SUCCEEDED)],
    steps := map[StepKey(1, "a") := RecordOf(SHARED, SUCCEEDED)],
    effects := multiset{StepKey(1, "a")})

  const BOOTS := [BootstrapStep("b", "x", "x")]

  /**
   Discovery compares ids within a version only. With one id in two versions, a run that fails
   at the second version reports neither of the two steps as pending.
   */
  lemma {:induction false} SharedIdLosesPending(s: Session)
    requires Fit(s) && s.db == HALF_DONE && !s.env.lockTaken && s.env.incompatible == {}
    requires s.fates == [Answered, Answered, Answered, Answered, Answered, Failed(false, false)]
    ensures Distinct(TWO_VERSIONS) && Consistent(TWO_VERSIONS, s.db)
    ensures var r := Run(s, TWO_VERSIONS, BOOTS).1; var required := Required(TWO_VERSIONS);
      && !r.succeeded && required == ["a", "a"]
      && r.applied == [] && r.alreadyComplete == ["a"] && r.pending == []
      && multiset(r.applied) + multiset(r.alreadyComplete) + multiset(r.pending) != multiset(required)
  {
    hide MigrateVersion, Bootstraps, Required, Deferred;
    var m, d1, d2 := TWO_VERSIONS, TWO_VERSIONS[0], TWO_VERSIONS[1];
    TwoVersionsConsistent();
    SharedRequired();
    var r := InitialReport(m);
    var s1 := Send(s, GetLock).0;
    var s3 := Send(Send(s1, Bootstrap("b")).0, VerifyBootstrap("b")).0;
    BootsPass(s1, r);
    var r1 := r.(succeeded := true);
    FirstVersionDone(s3, r1);
    var p1 := MigrateVersion(s3, r1, d1);
    SecondVersionUnread(p1.session, p1.report);
    var p2 := MigrateVersion(p1.session, p1.report, d2);
    assert MigrateVersions(Progress(s3, r1, false), m, 0) == MigrateVersions(p1, m, 1);
    assert MigrateVersions(p1, m, 1) == MigrateVersions(p2, m, 2) == p2;
  }

  lemma SharedRequired()
    ensures Required(TWO_VERSIONS) == ["a", "a"] && Remove(["a", "a"], "a") == []
  {
    var m := TWO_VERSIONS;
    assert m[1..] == [m[1]] && m[1..][1..] == [];
    assert RequiredOf([SHARED]) == ["a"] by { assert [SHARED][1..] == []; }
    assert Required(m[1..]) == ["a"] + Required([]);
    assert ["a", "a"][1..] == ["a"] && ["a"][1..] == [];
  }

  lemma BootsPass(s: Session, r: Report)
    requires Fit(s) && s.env.incompatible == {} && |s.fates| >= 2
    requires s.fates[0] == s.fates[1] == Answered
    ensures Bootstraps(Progress(s, r, false), BOOTS, 0) ==
      Progress(Send(Send(s, Bootstrap("b")).0, VerifyBootstrap("b")).0, r, false)
  {
    OneCharacterAccepted();
    var s2 := Send(Send(s, Bootstrap("b")).0, VerifyBootstrap("b")).0;
    assert Bootstraps(Progress(s2, r, false), BOOTS, 1) == Progress(s2, r, false);
  }

  lemma SecondVersionUnread(s: Session, r: Report)
    requires Fit(s) && s.fates == [Failed(false, false)]
    ensures var p := MigrateVersion(s, r, TWO_VERSIONS[1]);
      p.returned && p.report == Fail(r, "", VersionUnread)
  {
  }

  lemma OneCharacterAccepted()
    ensures StatementScanner.Accepts("x")
  {
    var cs := StatementScanner.Classes("x", StatementScanner.InCode);
    assert StatementScanner.Substance("x", cs, 0);
  }

  lemma TwoVersionsConsistent()
    ensures Distinct(TWO_VERSIONS) && Consistent(TWO_VERSIONS, HALF_DONE)
  {
    var m := TWO_VERSIONS;
    forall i, j | Valid(m, i, j) ensures StepOk(m, HALF_DONE, i, j) {
      assert j == 0 && (i == 0 || i == 1);
    }
    forall i | 0 <= i < |m| ensures VersionOk(m, HALF_DONE, i) {
      assert SHARED in m[i].steps;
    }
  }

  lemma FirstVersionDone(s: Session, r: Report)
    requires Fit(s) && s.db == HALF_DONE
    requires s.fates == [Answered, Answered, Failed(false, false)]
    ensures var p := MigrateVersion(s, r, TWO_VERSIONS[0]);
      && !p.returned && Fit(p.session) && p.session.fates == [Failed(false, false)]
      && p.session.locked == s.locked
      && p.report == CountComplete(r, "a").(versionsAlreadyComplete := r.versionsAlreadyComplete + 1)
  {
    hide RowsOf, Matches, MigrateSteps, Consistent;
    TwoVersionsConsistent();
    ConsistentMatches(TWO_VERSIONS, 0, HALF_DONE);
    var s2 := Send(Send(s, ReadVersion(1)).0, ReadSteps(1)).0;
    FirstRows();
    FirstSteps(s2, r, RowsOf(HALF_DONE, 1));
  }

  lemma FirstRows()
    ensures var rows := RowsOf(HALF_DONE, 1); "a" in rows && rows["a"] == RecordOf(SHARED, SUCCEEDED)
  {
    assert StepKey(1, "a") in HALF_DONE.steps;
  }

  lemma FirstSteps(s: Session, r: Report, rows: map<string, StepRow>)
    requires "a" in rows && rows["a"] == RecordOf(SHARED, SUCCEEDED)
    ensures MigrateSteps(Progress(s, r, false), TWO_VERSIONS[0], 0, rows, true) ==
      Progress(s, CountComplete(r, "a"), false)
  {
    var d := TWO_VERSIONS[0];
    var p1 := Progress(s, CountComplete(r, "a"), false);
    assert MigrateStep(s, r, d, d.steps[0], rows, true) == p1;
    assert MigrateSteps(p1, d, 1, rows, true) == p1;
  }
}
