/** The report of a run, on every exit path. */
module MigrationReports {
  import opened Sql
  import opened Migration
  import StatementScanner

  /** The ids that do not occur in `done`. */
  function Without(ids: seq<string>, done: seq<string>): seq<string> {
    if ids == [] then []
    else if ids[0] in done then Without(ids[1..], done)
    else [ids[0]] + Without(ids[1..], done)
  }

  /**
   `done` are the steps handled so far, in run order: each was applied or already complete, and
   the pending steps are the required ones whose id is not among them.
   */
  ghost predicate Tally(defs: seq<Definition>, done: seq<string>, versions: nat, r: Report) {
    && multiset(r.applied) + multiset(r.alreadyComplete) == multiset(done)
    && r.pending == Without(Required(defs), done)
    && r.stepsApplied == |r.applied|
    && r.versionsApplied + r.versionsAlreadyComplete == versions
    && r.deferredCleanup == Deferred(defs)
  }

  /** A run that has returned tells so, and its tally covers a prefix of the run order. */
  ghost predicate Told(defs: seq<Definition>, p: Progress) {
    !p.report.succeeded &&
    exists done, versions: nat :: done <= Required(defs) && versions <= |defs| && Tally(defs, done, versions, p.report)
  }

  lemma {:induction false} RemoveWithout(ids: seq<string>, done: seq<string>, id: string)
    ensures Remove(Without(ids, done), id) == Without(ids, done + [id])
  {
    if ids != [] {
      RemoveWithout(ids[1..], done, id);
      if ids[0] !in done {
        assert Without(ids, done)[1..] == Without(ids[1..], done);
      }
    }
  }

  lemma {:induction false} WithoutNothing(ids: seq<string>)
    ensures Without(ids, []) == ids
  {
    if ids != [] {
      WithoutNothing(ids[1..]);
    }
  }

  lemma {:induction false} RequiredOfAppends(steps: seq<Step>, step: Step)
    ensures RequiredOf(steps + [step]) == RequiredOf(steps) + (if step.phase.Cleanup? then [] else [step.id])
  {
    if steps == [] {
      assert (steps + [step])[1..] == [];
    } else {
      assert (steps + [step])[1..] == steps[1..] + [step];
      RequiredOfAppends(steps[1..], step);
    }
  }

  lemma {:induction false} RequiredOfPrefix(steps: seq<Step>, k: nat)
    requires k <= |steps|
    ensures RequiredOf(steps[..k]) <= RequiredOf(steps)
  {
    if k > 0 {
      assert steps[..k][1..] == steps[1..][..k - 1];
      RequiredOfPrefix(steps[1..], k - 1);
    }
  }

  lemma {:induction false} RequiredAppends(defs: seq<Definition>, d: Definition)
    ensures Required(defs + [d]) == Required(defs) + RequiredOf(d.steps)
  {
    if defs == [] {
      assert (defs + [d])[1..] == [];
    } else {
      assert (defs + [d])[1..] == defs[1..] + [d];
      RequiredAppends(defs[1..], d);
    }
  }

  lemma {:induction false} RequiredPrefix(defs: seq<Definition>, i: nat)
    requires i <= |defs|
    ensures Required(defs[..i]) <= Required(defs)
    decreases |defs| - i
  {
    if i < |defs| {
      assert defs[..i] + [defs[i]] == defs[..i + 1];
      RequiredAppends(defs[..i], defs[i]);
      RequiredPrefix(defs, i + 1);
    } else {
      assert defs[..i] == defs;
    }
  }

  /** The required ids before step `k` of definition `i`. */
  function RequiredBefore(defs: seq<Definition>, i: nat, k: nat): seq<string>
    requires i < |defs| && k <= |defs[i].steps|
  {
    Required(defs[..i]) + RequiredOf(defs[i].steps[..k])
  }

  lemma BeforeIsPrefix(defs: seq<Definition>, i: nat, k: nat)
    requires i < |defs| && k <= |defs[i].steps|
    ensures RequiredBefore(defs, i, k) <= Required(defs)
  {
    var a, b := Required(defs[..i]), RequiredOf(defs[i].steps);
    RequiredOfPrefix(defs[i].steps, k);
    assert defs[..i] + [defs[i]] == defs[..i + 1];
    RequiredAppends(defs[..i], defs[i]);
    RequiredPrefix(defs, i + 1);
    PrefixOfSum(a, RequiredOf(defs[i].steps[..k]), b);
  }

  lemma PrefixOfSum(a: seq<string>, b: seq<string>, c: seq<string>)
    requires b <= c
    ensures a + b <= a + c
  {
  }

  lemma BeforeNext(defs: seq<Definition>, i: nat, k: nat)
    requires i < |defs| && k < |defs[i].steps|
    ensures var step := defs[i].steps[k];
      RequiredBefore(defs, i, k + 1) ==
        RequiredBefore(defs, i, k) + (if step.phase.Cleanup? then [] else [step.id])
  {
    var steps := defs[i].steps;
    assert steps[..k] + [steps[k]] == steps[..k + 1];
    RequiredOfAppends(steps[..k], steps[k]);
  }

  lemma BeforeEnds(defs: seq<Definition>, i: nat)
    requires i < |defs|
    ensures RequiredBefore(defs, i, 0) == Required(defs[..i])
    ensures RequiredBefore(defs, i, |defs[i].steps|) == Required(defs[..i + 1])
  {
    assert defs[i].steps[..|defs[i].steps|] == defs[i].steps;
    assert defs[..i] + [defs[i]] == defs[..i + 1];
    RequiredAppends(defs[..i], defs[i]);
  }

  /** Nothing that is tallied differs. */
  predicate SameTally(r: Report, r': Report) {
    r'.applied == r.applied && r'.alreadyComplete == r.alreadyComplete && r'.pending == r.pending &&
    r'.stepsApplied == r.stepsApplied && r'.versionsApplied == r.versionsApplied &&
    r'.versionsAlreadyComplete == r.versionsAlreadyComplete && r'.deferredCleanup == r.deferredCleanup
  }

  /** How one step changes the report. */
  lemma StepReport(s: Session, r: Report, d: Definition, step: Step, rows: map<string, StepRow>, complete: bool)
    ensures var p := MigrateStep(s, r, d, step, rows, complete); var id := step.id;
      if p.returned then SameTally(r, p.report) && !p.report.succeeded
      else if step.phase.Cleanup? then p.report == r
      else
        p.report.succeeded == r.succeeded &&
        (p.report == CountComplete(r, id) ||
         (!complete && (SameTally(CountApplied(r, id), p.report))))
  {
    hide ApplyStep, Send, VerifyStep, Remove, RecordFailure;
    FailureReport(s, r, d, step);
  }

  lemma FailureReport(s: Session, r: Report, d: Definition, step: Step)
    ensures forall t, r', cause :: SameTally(r, r') ==>
      SameTally(r, RecordFailure(t, r', d, step, cause).report) &&
      RecordFailure(t, r', d, step, cause).returned && !RecordFailure(t, r', d, step, cause).report.succeeded
  {
    hide Send;
  }

  lemma CountTally(defs: seq<Definition>, done: seq<string>, versions: nat, r: Report, r': Report, id: string)
    requires Tally(defs, done, versions, r)
    requires r' == CountComplete(r, id) || SameTally(CountApplied(r, id), r')
    ensures Tally(defs, done + [id], versions, r')
  {
    RemoveWithout(Required(defs), done, id);
  }

  lemma StepTally(defs: seq<Definition>, done: seq<string>, versions: nat, s: Session, r: Report,
                  d: Definition, step: Step, rows: map<string, StepRow>, complete: bool)
    requires Tally(defs, done, versions, r)
    ensures var p := MigrateStep(s, r, d, step, rows, complete);
      var done' := if p.returned || step.phase.Cleanup? then done else done + [step.id];
      && Tally(defs, done', versions, p.report)
      && p.report.succeeded == (r.succeeded && !p.returned)
      && (!p.returned && complete ==> p.report.applied == r.applied)
  {
    hide MigrateStep;
    StepReport(s, r, d, step, rows, complete);
    var p := MigrateStep(s, r, d, step, rows, complete);
    if !p.returned && !step.phase.Cleanup? {
      CountTally(defs, done, versions, r, p.report, step.id);
    }
  }

  lemma Tells(defs: seq<Definition>, done: seq<string>, versions: nat, p: Progress)
    requires done <= Required(defs) && versions <= |defs|
    requires Tally(defs, done, versions, p.report) && !p.report.succeeded
    ensures Told(defs, p)
  {
  }

  lemma {:induction false} StepsTally(defs: seq<Definition>, i: nat, k: nat, p: Progress,
                                      rows: map<string, StepRow>, complete: bool)
    requires i < |defs| && k <= |defs[i].steps| && !p.returned
    requires Tally(defs, RequiredBefore(defs, i, k), i, p.report)
    ensures var q := MigrateSteps(p, defs[i], k, rows, complete);
      if q.returned then Told(defs, q)
      else
        Tally(defs, Required(defs[..i + 1]), i, q.report) && q.report.succeeded == p.report.succeeded &&
        (complete ==> q.report.applied == p.report.applied)
    decreases |defs[i].steps| - k
  {
    hide MigrateStep, Tally, Told, Required, RequiredBefore;
    BeforeIsPrefix(defs, i, k);
    BeforeEnds(defs, i);
    if k < |defs[i].steps| {
      var done, step := RequiredBefore(defs, i, k), defs[i].steps[k];
      StepTally(defs, done, i, p.session, p.report, defs[i], step, rows, complete);
      BeforeNext(defs, i, k);
      var next := MigrateStep(p.session, p.report, defs[i], step, rows, complete);
      if next.returned {
        Tells(defs, done, i, next);
      } else {
        assert done + [] == done;
        StepsTally(defs, i, k + 1, next, rows, complete);
      }
    }
  }

  lemma RowsTally(defs: seq<Definition>, i: nat, s: Session, r: Report, complete: bool)
    requires i < |defs| && Tally(defs, Required(defs[..i]), i, r)
    ensures var p := MigrateRows(s, r, defs[i], complete);
      if p.returned then Told(defs, p)
      else
        Tally(defs, Required(defs[..i + 1]), i + 1, p.report) && p.report.succeeded == r.succeeded &&
        (complete ==> p.report.applied == r.applied)
  {
    hide MigrateSteps, Send, RowsOf, Matches, Told, Tally, Required;
    var d := defs[i];
    BeforeEnds(defs, i);
    var p := MigrateRows(s, r, d, complete);
    var listed := Send(s, ReadSteps(d.version));
    var rows := RowsOf(View(listed.0), d.version);
    var started := if complete then (listed.0, true) else WriteVersionStatus(listed.0, d, RUNNING);
    if listed.1 && Matches(rows, d) && started.1 {
      var p0 := Progress(started.0, r, false);
      StepsTally(defs, i, 0, p0, rows, complete);
      var q := MigrateSteps(p0, d, 0, rows, complete);
      if !q.returned {
        FinishTally(defs, i, q, complete);
      }
    } else {
      FailedTally(defs, i, r, p);
    }
  }

  lemma FailedTally(defs: seq<Definition>, i: nat, r: Report, p: Progress)
    requires i <= |defs| && Tally(defs, Required(defs[..i]), i, r)
    requires p.report == Fail(r, p.report.failedStep, p.report.reason)
    ensures Told(defs, p)
  {
    RequiredPrefix(defs, i);
    Tells(defs, Required(defs[..i]), i, p);
  }

  lemma {:induction false} FinishTally(defs: seq<Definition>, i: nat, q: Progress, complete: bool)
    requires i < |defs| && !q.returned && Tally(defs, Required(defs[..i + 1]), i, q.report)
    ensures var p := FinishVersion(q, defs[i], complete);
      if p.returned then Told(defs, p)
      else
        Tally(defs, Required(defs[..i + 1]), i + 1, p.report) && p.report.succeeded == q.report.succeeded &&
        p.report.applied == q.report.applied
  {
    hide Send, Required;
    var p := FinishVersion(q, defs[i], complete);
    if p.returned {
      RequiredPrefix(defs, i + 1);
      Tells(defs, Required(defs[..i + 1]), i, p);
    }
  }

  lemma VersionTally(defs: seq<Definition>, i: nat, s: Session, r: Report)
    requires i < |defs| && Tally(defs, Required(defs[..i]), i, r)
    ensures var p := MigrateVersion(s, r, defs[i]);
      if p.returned then Told(defs, p)
      else Tally(defs, Required(defs[..i + 1]), i + 1, p.report) && p.report.succeeded == r.succeeded
  {
    hide MigrateRows, Send, Told, Tally;
    var d := defs[i];
    var p := MigrateVersion(s, r, d);
    var read := Send(s, ReadVersion(d.version));
    var versions := View(read.0).versions;
    if read.1 && (d.version in versions ==> versions[d.version].name == d.name) {
      RowsTally(defs, i, read.0, r, d.version in versions && versions[d.version].status == SUCCEEDED);
    } else {
      FailedTally(defs, i, r, p);
    }
  }

  lemma {:induction false} VersionsTally(defs: seq<Definition>, i: nat, p: Progress)
    requires i <= |defs| && !p.returned && Tally(defs, Required(defs[..i]), i, p.report)
    ensures var q := MigrateVersions(p, defs, i);
      if q.returned then Told(defs, q)
      else Tally(defs, Required(defs), |defs|, q.report) && q.report.succeeded == p.report.succeeded
    decreases |defs| - i
  {
    if i < |defs| {
      hide MigrateVersion, Tally, Told;
      VersionTally(defs, i, p.session, p.report);
      var next := MigrateVersion(p.session, p.report, defs[i]);
      if !next.returned {
        VersionsTally(defs, i + 1, next);
      }
    } else {
      assert defs[..i] == defs;
    }
  }

  lemma {:induction false} BootstrapsTally(defs: seq<Definition>, p: Progress, boots: seq<BootstrapStep>, k: nat)
    requires k <= |boots| && !p.returned && Tally(defs, [], 0, p.report) && !p.report.succeeded
    ensures var q := Bootstraps(p, boots, k);
      Tally(defs, [], 0, q.report) && !q.report.succeeded
    decreases |boots| - k
  {
    if k < |boots| {
      hide StatementScanner.Accepts, Send;
      var verified := Send(Send(p.session, Bootstrap(boots[k].id)).0, VerifyBootstrap(boots[k].id));
      BootstrapsTally(defs, Progress(verified.0, p.report, false), boots, k + 1);
    }
  }

  lemma InitialTally(defs: seq<Definition>)
    ensures Tally(defs, [], 0, InitialReport(defs))
  {
    WithoutNothing(Required(defs));
  }

  lemma FlagTally(defs: seq<Definition>, done: seq<string>, versions: nat, r: Report)
    requires Tally(defs, done, versions, r)
    ensures Tally(defs, done, versions, r.(succeeded := true))
  {
  }

  lemma LockedTally(s: Session, defs: seq<Definition>, boots: seq<BootstrapStep>)
    ensures var p := RunLocked(s, InitialReport(defs), defs, boots);
      if p.returned then Told(defs, p)
      else p.report.succeeded && Tally(defs, Required(defs), |defs|, p.report)
  {
    hide Bootstraps, MigrateVersions, Told, Tally, Required, Deferred;
    var r := InitialReport(defs);
    InitialTally(defs);
    var p0 := Progress(s, r, false);
    var q := Bootstraps(p0, boots, 0);
    BootstrapsTally(defs, p0, boots, 0);
    if boots == [] {
      StoppedTally(defs, s, r, BootstrapMissing);
    } else if q.returned {
      Tells(defs, [], 0, q);
    } else {
      FlagTally(defs, [], 0, q.report);
      assert defs[..0] == [] && Required([]) == [] by { NothingRequired(); }
      VersionsTally(defs, 0, q.(report := q.report.(succeeded := true)));
    }
  }

  lemma NothingRequired()
    ensures Required([]) == []
  {
  }

  lemma StoppedTally(defs: seq<Definition>, s: Session, r: Report, reason: Reason)
    requires Tally(defs, [], 0, r)
    ensures Told(defs, Stop(s, r, "", reason))
  {
    Tells(defs, [], 0, Stop(s, r, "", reason));
  }

  /** The report of a run, on every exit path. */
  lemma {:induction false} RunTally(s: Session, defs: seq<Definition>, boots: seq<BootstrapStep>)
    ensures var r := Run(s, defs, boots).1;
      && (r.succeeded ==> Tally(defs, Required(defs), |defs|, r) && r.pending == [])
      && exists done, versions: nat ::
           done <= Required(defs) && versions <= |defs| && Tally(defs, done, versions, r)
  {
    hide Send, RunLocked, Release, Tally, Required, Deferred;
    var r := InitialReport(defs);
    var acquired := Send(s, GetLock);
    LockedTally(acquired.0, defs, boots);
    var p := RunLocked(acquired.0, r, defs, boots);
    InitialTally(defs);
    FailTally(defs, [], 0, r, LockUnanswered);
    FailTally(defs, [], 0, r, LockNotAcquired);
    if acquired.1 && acquired.0.locked && !p.returned {
      FailTally(defs, Required(defs), |defs|, p.report, ReleaseUnconfirmed);
    }
  }

  lemma FailTally(defs: seq<Definition>, done: seq<string>, versions: nat, r: Report, reason: Reason)
    requires Tally(defs, done, versions, r)
    ensures Tally(defs, done, versions, Fail(r, "", reason))
    ensures done == Required(defs) ==> r.pending == []
  {
    WithoutAll(done, done);
  }

  lemma {:induction false} WithoutAll(ids: seq<string>, done: seq<string>)
    requires forall id :: id in ids ==> id in done
    ensures Without(ids, done) == []
  {
    if ids != [] {
      WithoutAll(ids[1..], done);
    }
  }

  /** No id is among those done. */
  predicate NoneDone(ids: seq<string>, done: seq<string>) {
    forall id :: id in ids ==> id !in done
  }

  lemma NoneDoneHead(ids: seq<string>, done: seq<string>)
    requires ids != []
    ensures NoneDone(ids, done) <==> ids[0] !in done && NoneDone(ids[1..], done)
  {
    assert forall id :: id in ids <==> id == ids[0] || id in ids[1..];
  }

  lemma {:induction false} WithoutLength(ids: seq<string>, done: seq<string>)
    ensures |Without(ids, done)| <= |ids|
    ensures |Without(ids, done)| == |ids| <==> NoneDone(ids, done)
    ensures NoneDone(ids, done) ==> Without(ids, done) == ids
  {
    if ids != [] {
      hide NoneDone;
      NoneDoneHead(ids, done);
      WithoutLength(ids[1..], done);
    }
  }

  lemma {:induction false} WithoutJoins(a: seq<string>, b: seq<string>, done: seq<string>)
    ensures Without(a + b, done) == Without(a, done) + Without(b, done)
  {
    if a == [] {
      assert a + b == b;
    } else {
      assert (a + b)[1..] == a[1..] + b;
      WithoutJoins(a[1..], b, done);
    }
  }

  /**
   The three lists of a report partition the required ids exactly when no id still to come
   repeats one that was handled, since a finished id is removed from the pending ones by name.
   */
  lemma {:induction false} Partition(defs: seq<Definition>, done: seq<string>, versions: nat, r: Report)
    requires done <= Required(defs) && Tally(defs, done, versions, r)
    ensures
      multiset(r.applied) + multiset(r.alreadyComplete) + multiset(r.pending) == multiset(Required(defs)) <==>
      NoneDone(Required(defs)[|done|..], done)
  {
    var all := Required(defs);
    var rest := all[|done|..];
    assert all == done + rest;
    WithoutJoins(done, rest, done);
    WithoutAll(done, done);
    WithoutLength(rest, done);
    assert r.pending == Without(rest, done);
    assert multiset(all) == multiset(done) + multiset(rest);
    assert |multiset(done) + multiset(r.pending)| == |done| + |r.pending|;
  }

  predicate NoRepeats(ids: seq<string>) {
    forall i, j :: 0 <= i < j < |ids| ==> ids[i] != ids[j]
  }

  /** With step ids unique across versions the lists partition the required ids on every exit path. */
  lemma {:induction false} PartitionOnEveryExit(s: Session, defs: seq<Definition>, boots: seq<BootstrapStep>)
    requires NoRepeats(Required(defs))
    ensures var r := Run(s, defs, boots).1;
      && multiset(r.applied) + multiset(r.alreadyComplete) + multiset(r.pending) == multiset(Required(defs))
      && r.stepsApplied == |r.applied|
      && (r.succeeded ==> r.pending == [] && r.versionsApplied + r.versionsAlreadyComplete == |defs|)
  {
    hide Run, Required, Without;
    var r := Run(s, defs, boots).1;
    RunTally(s, defs, boots);
    var done, versions: nat :| done <= Required(defs) && versions <= |defs| && Tally(defs, done, versions, r);
    assert Required(defs) == done + Required(defs)[|done|..];
    Partition(defs, done, versions, r);
  }
}
