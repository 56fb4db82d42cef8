/**
 What the named lock is for (migration.cpp:243-267, 344-352, 537-542): any number of processes
 start the migration on one database, and the server takes their statements one by one, in any
 order.
 */
module MigrationInterleavings {
  import opened Wrappers
  import opened Sql
  import opened Traces
  import opened Migration
  import opened MigrationSteps
  import opened MigrationRecovery
  import opened MigrationRuns
  import opened MigrationLocks

  /**
   A process on its own connection. Its statements are those of its run alone from the rows at its
   start, for as long as the replies are those of that run; `done` of them are behind it.
   */
  datatype Runner = Runner(attempt: Attempt, start: Database, done: nat, txn: Option<Database>)

  /**
   `history` lists the runs that were given the lock. `disturbed` is set once a statement meets
   other rows than its own run has left: from then on nothing would be known about that run.
   */
  datatype System = System(
    db: Database,
    holder: Option<nat>,
    runners: seq<Runner>,
    history: seq<Attempt>,
    disturbed: bool)

  const INITIAL := System(EMPTY_DATABASE, None, [], [], false)

  datatype Action =
    | Begin(attempt: Attempt)
    | Next(i: nat)
    | Drop(j: nat)

  function Script(m: Manifest, r: Runner): seq<Event> {
    SessionOf(m, r.attempt, r.start).log
  }

  /** The rows as the first k statements of the run leave them when it is alone. */
  function Alone(m: Manifest, r: Runner, k: nat): Server
    requires k <= |Script(m, r)|
  {
    Absorbed(Server(r.start, None, false), Script(m, r)[..k], r.attempt.env)
  }

  /** The run has a statement to come that the server will carry out. */
  predicate Active(m: Manifest, r: Runner) {
    exists k :: r.done <= k < |Script(m, r)| && Reached(Script(m, r)[k])
  }

  predicate Enabled(m: Manifest, s: System, a: Action) {
    match a
    case Begin(_) => true
    case Next(i) => i < |s.runners| && s.runners[i].done < |Script(m, s.runners[i])|
    case Drop(i) => i < |s.runners| && !Active(m, s.runners[i])
  }

  /** What the server holds for runner i: the rows, its transaction, and whether it has the lock. */
  function Seen(s: System, i: nat): Server
    requires i < |s.runners|
  {
    Server(s.db, s.runners[i].txn, s.holder == Some(i))
  }

  function Advance(m: Manifest, s: System, i: nat): System
    requires Enabled(m, s, Next(i))
  {
    var r := s.runners[i];
    var e := Script(m, r)[r.done];
    var v := Absorb(Seen(s, i), e, r.attempt.env);
    System(
      v.db,
      if v.locked then Some(i) else if s.holder == Some(i) then None else s.holder,
      s.runners[i := r.(done := r.done + 1, txn := v.txn)],
      if v.locked && s.holder != Some(i) then s.history + [r.attempt] else s.history,
      s.disturbed || (Reached(e) && Seen(s, i) != Alone(m, r, r.done)))
  }

  /** A process asks for the lock: the server gives it to one that asks while it is free. */
  function Joined(s: System, a: Attempt): System {
    var attempt := a.(env := a.env.(lockTaken := s.holder.Some?));
    s.(runners := s.runners + [Runner(attempt, s.db, 0, None)])
  }

  /**
   A server drops a session, with its lock and its open transaction, once nothing reaches it any
   more. A process cut off before a statement is one whose next statement fails without effect.
   */
  function Dropped(m: Manifest, s: System, i: nat): System
    requires i < |s.runners|
  {
    var r := s.runners[i];
    s.(holder := if s.holder == Some(i) then None else s.holder,
       runners := s.runners[i := r.(done := |Script(m, r)|, txn := None)])
  }

  function Step(m: Manifest, s: System, a: Action): System
    requires Enabled(m, s, a)
  {
    match a
    case Begin(attempt) =>
      var joined := Joined(s, attempt);
      if Enabled(m, joined, Next(|s.runners|)) then Advance(m, joined, |s.runners|) else joined
    case Next(i) => Advance(m, s, i)
    case Drop(i) => Dropped(m, s, i)
  }

  ghost predicate Allowed(m: Manifest, s: System, actions: seq<Action>)
    decreases |actions|
  {
    actions == [] || (Enabled(m, s, actions[0]) && Allowed(m, Step(m, s, actions[0]), actions[1..]))
  }

  function Interleaved(m: Manifest, s: System, actions: seq<Action>): System
    requires Allowed(m, s, actions)
    decreases |actions|
  {
    if actions == [] then s else Interleaved(m, Step(m, s, actions[0]), actions[1..])
  }

  // The script of a run.

  lemma RunTraced(s: Session, m: Manifest, boots: seq<BootstrapStep>)
    ensures Traced(s, Run(s, m, boots).0)
  {
    hide Traced, Send, RunLocked;
    var acquired := Send(s, GetLock).0;
    TracedSend(s, GetLock);
    var p := RunLocked(acquired, InitialReport(m), m, boots);
    LockedFrame(acquired, InitialReport(m), m, boots);
    TracedTransitive(s, acquired, p.session);
    TracedSend(p.session, ReleaseLock);
    var released := Send(p.session, ReleaseLock).0;
    TracedStill(released, Poison(released));
    TracedTransitive(s, p.session, released);
    TracedTransitive(s, released, Poison(released));
  }

  /** The whole script leaves what the run alone leaves. */
  lemma ScriptEnds(m: Manifest, r: Runner)
    ensures Alone(m, r, |Script(m, r)|).db == Close(SessionOf(m, r.attempt, r.start))
  {
    hide Run, Absorbed;
    var s := Open(r.start, r.attempt.fates, r.attempt.env);
    var t := SessionOf(m, r.attempt, r.start);
    RunTraced(s, m, r.attempt.boots);
    assert t.log[0..] == t.log[..|t.log|] == t.log;
  }

  /** GET_LOCK comes first; without the lock nothing follows, and with it RELEASE_LOCK ends the script. */
  lemma ScriptShape(m: Manifest, r: Runner)
    ensures var log := Script(m, r);
      && |log| >= 1 && log[0].stmt == GetLock
      && (|log| > 1 ==> Reached(log[0]) && !r.attempt.env.lockTaken && log[|log| - 1].stmt == ReleaseLock)
      && (forall k :: 0 < k < |log| - 1 ==> !IsLockStatement(log[k].stmt))
  {
    hide Run;
    var s := Open(r.start, r.attempt.fates, r.attempt.env);
    LockBracket(s, m, r.attempt.boots);
    var t := Run(s, m, r.attempt.boots).0;
    assert Send(s, GetLock).1 && Send(s, GetLock).0.locked ==> !s.env.lockTaken;
    assert Confirmed(s) ==> NextFate(s) == Answered;
    FirstEvent(s, m, r.attempt.boots);
  }

  lemma FirstEvent(s: Session, m: Manifest, boots: seq<BootstrapStep>)
    requires s.log == []
    ensures var log := Run(s, m, boots).0.log; log != [] && log[0] == Event(GetLock, NextFate(s))
  {
    hide RunLocked, Release;
    var acquired := Send(s, GetLock).0;
    var p := RunLocked(acquired, InitialReport(m), m, boots);
    LockedFrame(acquired, InitialReport(m), m, boots);
    ReleaseEvent(p.session);
  }

  lemma OneMore(m: Manifest, r: Runner, k: nat)
    requires k < |Script(m, r)|
    ensures Alone(m, r, k + 1) == Absorb(Alone(m, r, k), Script(m, r)[k], r.attempt.env)
  {
    hide Absorb, SessionOf;
    assert Script(m, r)[..k + 1][..k] == Script(m, r)[..k];
  }

  lemma {:induction false} RestUnreached(m: Manifest, r: Runner, k: nat)
    requires r.done <= k <= |Script(m, r)| && !Active(m, r)
    ensures Alone(m, r, k) == Alone(m, r, |Script(m, r)|)
    decreases |Script(m, r)| - k
  {
    if k < |Script(m, r)| {
      hide Absorbed;
      OneMore(m, r, k);
      RestUnreached(m, r, k + 1);
    }
  }

  /** Only lock statements move the lock. */
  lemma AbsorbLock(v: Server, e: Event, env: Environment)
    ensures !Reached(e) ==> Absorb(v, e, env) == v
    ensures !IsLockStatement(e.stmt) ==> Absorb(v, e, env).locked == v.locked
    ensures e.stmt == GetLock && Reached(e) ==> Absorb(v, e, env) == v.(locked := v.locked || !env.lockTaken)
    ensures e.stmt == ReleaseLock && Reached(e) ==> Absorb(v, e, env) == v.(locked := false)
  {
    hide Perform;
  }

  lemma {:induction false} AfterInParts(m: Manifest, first: seq<Attempt>, rest: seq<Attempt>, db: Database)
    ensures After(m, first + rest, db) == After(m, rest, After(m, first, db))
    decreases |first|
  {
    hide SessionOf;
    if first == [] {
      assert first + rest == rest;
    } else {
      assert (first + rest)[1..] == first[1..] + rest;
      AfterInParts(m, first[1..], rest, Close(SessionOf(m, first[0], db)));
    }
  }

  lemma AfterOneMore(m: Manifest, attempts: seq<Attempt>, a: Attempt, db: Database)
    ensures After(m, attempts + [a], db) == Close(SessionOf(m, a, After(m, attempts, db)))
  {
    hide SessionOf;
    AfterInParts(m, attempts, [a], db);
    var before := After(m, attempts, db);
    assert [a][1..] == [];
    assert After(m, [a], before) == After(m, [a][1..], Close(SessionOf(m, a, before)));
  }

  // The invariant.

  /** The run that holds the lock goes on as if it were alone after the runs before it. */
  predicate Holding(m: Manifest, s: System, i: nat) {
    && i < |s.runners| && s.history != []
    && s.runners[i].attempt == s.history[|s.history| - 1]
    && s.runners[i].start == After(m, s.history[..|s.history| - 1], EMPTY_DATABASE)
    && s.runners[i].done <= |Script(m, s.runners[i])|
    && Seen(s, i) == Alone(m, s.runners[i], s.runners[i].done)
  }

  ghost predicate Sound(m: Manifest, s: System) {
    && !s.disturbed
    && (forall i :: 0 <= i < |s.runners| && s.holder != Some(i) ==> !Active(m, s.runners[i]))
    && (forall i :: 0 <= i < |s.runners| ==> 1 <= s.runners[i].done <= |Script(m, s.runners[i])|)
    && match s.holder
       case None => s.db == After(m, s.history, EMPTY_DATABASE)
       case Some(i) => i < |s.runners| && Holding(m, s, i)
  }

  /** When the holder is through, the rows are those of the runs in the order of their locks. */
  lemma HolderThrough(m: Manifest, s: System, i: nat)
    requires Holding(m, s, i) && !Active(m, s.runners[i])
    ensures s.db == After(m, s.history, EMPTY_DATABASE)
  {
    hide Alone, Absorbed, Script, SessionOf;
    var r := s.runners[i];
    RestUnreached(m, r, r.done);
    ScriptEnds(m, r);
    var n := |s.history| - 1;
    AfterOneMore(m, s.history[..n], r.attempt, EMPTY_DATABASE);
    assert s.history[..n] + [r.attempt] == s.history;
  }

  lemma SameScript(m: Manifest, r: Runner, r': Runner)
    requires r.attempt == r'.attempt && r.start == r'.start
    ensures Script(m, r) == Script(m, r')
  {
  }

  lemma DropKeeps(m: Manifest, s: System, i: nat)
    requires Sound(m, s) && Enabled(m, s, Drop(i))
    ensures Sound(m, Dropped(m, s, i))
  {
    hide Script, Holding, After;
    var t := Dropped(m, s, i);
    SameScript(m, s.runners[i], t.runners[i]);
    if s.holder == Some(i) {
      HolderThrough(m, s, i);
    } else if s.holder.Some? {
      OthersHold(m, s, t, s.holder.value);
    }
  }

  /** Nothing of the holder has changed. */
  lemma OthersHold(m: Manifest, s: System, t: System, h: nat)
    requires Holding(m, s, h) && s.holder == Some(h)
    requires t.db == s.db && t.holder == s.holder && t.history == s.history
    requires h < |t.runners| && t.runners[h] == s.runners[h]
    ensures Holding(m, t, h)
  {
  }

  /** A statement that the server does not carry out. */
  lemma UnreachedKeeps(m: Manifest, s: System, i: nat)
    requires Sound(m, s) && Enabled(m, s, Next(i))
    requires !Reached(Script(m, s.runners[i])[s.runners[i].done])
    ensures Sound(m, Advance(m, s, i))
  {
    hide Script, Absorbed, Holding, After;
    var r := s.runners[i];
    var t := Advance(m, s, i);
    assert t == s.(runners := t.runners) && t.runners[i] == r.(done := r.done + 1);
    SameScript(m, r, t.runners[i]);
    if s.holder == Some(i) {
      StillHolding(m, s, i);
    } else if s.holder.Some? {
      OthersHold(m, s, t, s.holder.value);
    }
  }

  lemma StillHolding(m: Manifest, s: System, i: nat)
    requires Holding(m, s, i) && s.holder == Some(i) && Enabled(m, s, Next(i))
    requires Absorb(Seen(s, i), Script(m, s.runners[i])[s.runners[i].done], s.runners[i].attempt.env).locked
    ensures Holding(m, Advance(m, s, i), i)
  {
    hide Absorb, Absorbed, After, SessionOf;
    OneMore(m, s.runners[i], s.runners[i].done);
  }

  /** A statement that the server carries out is one of the holder, and it meets the rows of its own run. */
  lemma ReachedIsHolder(m: Manifest, s: System, i: nat)
    requires Sound(m, s) && Enabled(m, s, Next(i))
    requires Reached(Script(m, s.runners[i])[s.runners[i].done])
    ensures s.holder == Some(i) && Holding(m, s, i)
  {
    hide Script, Holding;
    assert Active(m, s.runners[i]);
  }

  lemma ReachedKeeps(m: Manifest, s: System, i: nat)
    requires Sound(m, s) && Enabled(m, s, Next(i))
    requires Reached(Script(m, s.runners[i])[s.runners[i].done])
    ensures Sound(m, Advance(m, s, i))
  {
    hide Script, Holding, After, Absorb;
    ReachedIsHolder(m, s, i);
    var r := s.runners[i];
    var e := Script(m, r)[r.done];
    ScriptShape(m, r);
    AbsorbLock(Seen(s, i), e, r.attempt.env);
    if r.done == |Script(m, r)| - 1 {
      ReleaseKeeps(m, s, i);
    } else {
      StillHolding(m, s, i);
      MiddleKeeps(m, s, i);
    }
  }

  /** The holder releases the lock: the rows are those of the runs in the order of their locks. */
  lemma ReleaseKeeps(m: Manifest, s: System, i: nat)
    requires Sound(m, s) && s.holder == Some(i) && Holding(m, s, i)
    requires s.runners[i].done == |Script(m, s.runners[i])| - 1
    requires
      var r := s.runners[i];
      !Absorb(Seen(s, i), Script(m, r)[r.done], r.attempt.env).locked
    ensures Sound(m, Advance(m, s, i))
  {
    hide Absorb, Absorbed, After, Run;
    var r := s.runners[i];
    var t := Advance(m, s, i);
    OneMore(m, r, r.done);
    assert t.db == Alone(m, r, |Script(m, r)|).db;
    ScriptEnds(m, r);
    var n := |s.history| - 1;
    AfterOneMore(m, s.history[..n], r.attempt, EMPTY_DATABASE);
    assert s.history[..n] + [r.attempt] == s.history;
  }

  lemma MiddleKeeps(m: Manifest, s: System, i: nat)
    requires Sound(m, s) && s.holder == Some(i) && Holding(m, s, i) && Enabled(m, s, Next(i))
    requires Holding(m, Advance(m, s, i), i)
    requires
      var r := s.runners[i];
      Absorb(Seen(s, i), Script(m, r)[r.done], r.attempt.env).locked
    ensures Sound(m, Advance(m, s, i))
  {
    hide Absorb, Absorbed, After, Run, Seen;
  }

  /** The first statement of a run is GET_LOCK; it begins the locked part exactly when the lock is free. */
  lemma BeginKeeps(m: Manifest, s: System, a: Attempt)
    requires Sound(m, s)
    ensures Sound(m, Step(m, s, Begin(a)))
  {
    hide Script, Holding, After, Absorb, Absorbed;
    var n := |s.runners|;
    var joined := Joined(s, a);
    var r := joined.runners[n];
    ScriptShape(m, r);
    var e := Script(m, r)[0];
    AbsorbLock(Seen(joined, n), e, r.attempt.env);
    AloneAtFirst(m, r);
    var t := Advance(m, joined, n);
    SameScript(m, r, t.runners[n]);
    assert t.runners == s.runners + [t.runners[n]];
    assert t.runners[n].done == 1;
    if Reached(e) && s.holder.None? {
      LockGiven(m, s, joined, t, n);
    } else {
      assert !Active(m, t.runners[n]);
      if s.holder.Some? {
        OthersHold(m, s, t, s.holder.value);
      }
    }
  }

  lemma AloneAtFirst(m: Manifest, r: Runner)
    ensures Alone(m, r, 0) == Server(r.start, None, false)
  {
  }

  lemma LockGiven(m: Manifest, s: System, joined: System, t: System, n: nat)
    requires Sound(m, s) && s.holder.None? && n == |s.runners| < |joined.runners|
    requires joined.holder.None? && joined.history == s.history && joined.runners[n].start == s.db
    requires Enabled(m, joined, Next(n)) && t == Advance(m, joined, n) && joined.runners[n].done == 0
    requires t.holder == Some(n) && Seen(joined, n) == Alone(m, joined.runners[n], 0)
    ensures Holding(m, t, n)
  {
    hide Absorb, Absorbed, After, SessionOf;
    OneMore(m, joined.runners[n], 0);
    assert t.history[..|t.history| - 1] == s.history;
  }

  lemma {:induction false} StepKeeps(m: Manifest, s: System, a: Action)
    requires Sound(m, s) && Enabled(m, s, a)
    ensures Sound(m, Step(m, s, a))
  {
    hide Sound;
    match a
    case Begin(attempt) => BeginKeeps(m, s, attempt);
    case Next(i) =>
      if Reached(Script(m, s.runners[i])[s.runners[i].done]) {
        ReachedKeeps(m, s, i);
      } else {
        UnreachedKeeps(m, s, i);
      }
    case Drop(i) => DropKeeps(m, s, i);
  }

  lemma InitialSound(m: Manifest)
    ensures Sound(m, INITIAL)
  {
    hide SessionOf, Absorbed;
  }

  lemma {:induction false} InterleavedKeeps(m: Manifest, s: System, actions: seq<Action>)
    requires Sound(m, s) && Allowed(m, s, actions)
    ensures Sound(m, Interleaved(m, s, actions))
    decreases |actions|
  {
    if actions != [] {
      hide Sound, Step;
      StepKeeps(m, s, actions[0]);
      InterleavedKeeps(m, Step(m, s, actions[0]), actions[1..]);
    }
  }

  // Every interleaving.

  /**
   No statement ever meets rows that its own run has not left, the one run with statements to come
   that reach the server is the holder of the lock, and whenever the lock is free the rows are
   those of the runs that were given it, one whole run after another, in the order of their locks.
   */
  lemma {:induction false} EveryInterleaving(m: Manifest, actions: seq<Action>)
    requires Allowed(m, INITIAL, actions)
    ensures var s := Interleaved(m, INITIAL, actions);
      && !s.disturbed
      && (forall i :: 0 <= i < |s.runners| && Active(m, s.runners[i]) ==> s.holder == Some(i))
      && (s.holder.None? ==> s.db == After(m, s.history, EMPTY_DATABASE))
  {
    hide Active;
    InitialSound(m);
    InterleavedKeeps(m, INITIAL, actions);
  }

  /** While a run holds the lock, nothing that another process does changes a row, a transaction or the lock. */
  lemma {:induction false} LockedPartsApart(m: Manifest, actions: seq<Action>, h: nat, a: Action)
    requires Allowed(m, INITIAL, actions)
    requires Interleaved(m, INITIAL, actions).holder == Some(h)
    requires Enabled(m, Interleaved(m, INITIAL, actions), a) && a != Next(h) && a != Drop(h)
    ensures
      var s := Interleaved(m, INITIAL, actions);
      var t := Step(m, s, a);
      t.db == s.db && t.holder == s.holder && t.history == s.history && h < |s.runners| <= |t.runners| &&
      t.runners[h] == s.runners[h]
  {
    hide Script, Holding, After, Absorb, Absorbed, Interleaved;
    var s := Interleaved(m, INITIAL, actions);
    InitialSound(m);
    InterleavedKeeps(m, INITIAL, actions);
    match a
    case Begin(attempt) =>
      var joined := Joined(s, attempt);
      var r := joined.runners[|s.runners|];
      ScriptShape(m, r);
      AbsorbLock(Seen(joined, |s.runners|), Script(m, r)[0], r.attempt.env);
    case Next(i) =>
      if Reached(Script(m, s.runners[i])[s.runners[i].done]) {
        ReachedIsHolder(m, s, i);
      }
      AbsorbLock(Seen(s, i), Script(m, s.runners[i])[s.runners[i].done], s.runners[i].attempt.env);
    case Drop(i) =>
  }

  /** Whenever the lock is free the records agree with the manifest and with the effects. */
  lemma {:induction false} RecordsAtRest(m: Manifest, actions: seq<Action>)
    requires Distinct(m) && Allowed(m, INITIAL, actions) && Interleaved(m, INITIAL, actions).holder.None?
    ensures Consistent(m, Interleaved(m, INITIAL, actions).db)
  {
    hide Interleaved, Consistent, After;
    EveryInterleaving(m, actions);
    EmptyConsistent(m);
    EveryHistory(m, Interleaved(m, INITIAL, actions).history, EMPTY_DATABASE);
  }

  lemma {:induction false} HistoryGrows(m: Manifest, s: System, actions: seq<Action>)
    requires Allowed(m, s, actions)
    ensures s.history <= Interleaved(m, s, actions).history
    decreases |actions|
  {
    if actions != [] {
      hide Absorb, Script, Alone, Active;
      HistoryGrows(m, Step(m, s, actions[0]), actions[1..]);
    }
  }

  /** From one moment with the lock free to any later one, no SUCCEEDED record and no effect is taken back. */
  lemma {:induction false} NothingTakenBack(m: Manifest, actions: seq<Action>, more: seq<Action>)
    requires Distinct(m) && Allowed(m, INITIAL, actions) && Interleaved(m, INITIAL, actions).holder.None?
    requires
      var s := Interleaved(m, INITIAL, actions);
      Allowed(m, s, more) && Interleaved(m, s, more).holder.None?
    ensures var s := Interleaved(m, INITIAL, actions); Advances(s.db, Interleaved(m, s, more).db)
  {
    hide Interleaved, Consistent, After, Advances, Holding;
    var s := Interleaved(m, INITIAL, actions);
    var t := Interleaved(m, s, more);
    InitialSound(m);
    InterleavedKeeps(m, INITIAL, actions);
    InterleavedKeeps(m, s, more);
    RecordsAtRest(m, actions);
    HistoryGrows(m, s, more);
    var later := t.history[|s.history|..];
    assert s.history + later == t.history;
    AfterInParts(m, s.history, later, EMPTY_DATABASE);
    EveryHistory(m, later, s.db);
  }

  // At most once, also in the middle of a run.

  /** No effect is ever taken back: an open transaction has at least the effects of the rows. */
  ghost predicate Ahead(v: Server) {
    v.txn.Some? ==> forall key :: v.txn.value.effects[key] >= v.db.effects[key]
  }

  lemma PerformGrows(db: Database, stmt: Statement)
    ensures forall key :: Perform(db, stmt).effects[key] >= db.effects[key]
  {
  }

  lemma AbsorbGrows(v: Server, e: Event, env: Environment)
    requires Ahead(v)
    ensures Ahead(Absorb(v, e, env))
    ensures forall key :: Absorb(v, e, env).db.effects[key] >= v.db.effects[key]
  {
    hide Perform;
    PerformGrows(if v.txn.Some? then v.txn.value else v.db, e.stmt);
  }

  lemma {:induction false} AbsorbedGrows(v: Server, log: seq<Event>, env: Environment)
    requires Ahead(v)
    ensures Ahead(Absorbed(v, log, env))
    ensures forall key :: Absorbed(v, log, env).db.effects[key] >= v.db.effects[key]
  {
    if log != [] {
      hide Absorb, Ahead;
      var init := log[..|log| - 1];
      AbsorbedGrows(v, init, env);
      AbsorbGrows(Absorbed(v, init, env), log[|log| - 1], env);
    }
  }

  /** The rows in the middle of a run have at most the effects of its end. */
  lemma MiddleOfRun(m: Manifest, r: Runner, k: nat)
    requires k <= |Script(m, r)|
    ensures forall key :: Close(SessionOf(m, r.attempt, r.start)).effects[key] >= Alone(m, r, k).db.effects[key]
  {
    hide Absorb, SessionOf;
    var log := Script(m, r);
    var begun := Server(r.start, None, false);
    assert log[..k] + log[k..] == log == log[..|log|];
    AbsorbedGrows(begun, log[..k], r.attempt.env);
    AbsorbedInParts(begun, log[..k], log[k..], r.attempt.env);
    AbsorbedGrows(Alone(m, r, k), log[k..], r.attempt.env);
    ScriptEnds(m, r);
  }

  /**
   From empty tables, at every moment of every interleaving: each step has taken effect at most
   once, and check and cleanup steps never, while no recovery verify goes unanswered on a usable
   connection.
   */
  lemma {:induction false} AtMostOnceAtEveryMoment(m: Manifest, actions: seq<Action>, i: int, j: int)
    requires Distinct(m) && Allowed(m, INITIAL, actions) && Valid(m, i, j)
    requires AllAttended(m, Interleaved(m, INITIAL, actions).history, EMPTY_DATABASE)
    ensures var db, step := Interleaved(m, INITIAL, actions).db, m[i].steps[j];
      && db.effects[KeyAt(m, i, j)] <= 1
      && (step.execution.Check? || step.phase.Cleanup? ==> db.effects[KeyAt(m, i, j)] == 0)
  {
    hide Interleaved, After, SessionOf, Script, Absorbed;
    var s := Interleaved(m, INITIAL, actions);
    InitialSound(m);
    InterleavedKeeps(m, INITIAL, actions);
    AtMostOnce(m, s.history, i, j);
    if s.holder.Some? {
      var r := s.runners[s.holder.value];
      MiddleOfRun(m, r, r.done);
      var n := |s.history| - 1;
      AfterOneMore(m, s.history[..n], r.attempt, EMPTY_DATABASE);
      assert s.history[..n] + [r.attempt] == s.history;
    }
  }
}
