/**
 Any number of pooled connections and transaction handles, under every mix of begin, moves, commit,
 rollback, destruction, statements and releases of leases (transaction.cpp:18-81,
 connection_pool.cpp:31-34 and 91-99). The steps on a session are the functions that the class
 Transaction is proved against.

 What ties a transaction to its lease is the scope that declares both: the unit of work
 (legacy_unit_of_work.cpp:241-242), the startup checks (legacy_startup.cpp:47-50), and the
 migration stage with one block for each DML step (production_platform.cpp:113, migration.cpp:471).
 The lease is declared first, so the handles are destroyed before it.
 */
module TransactionHandles {
  import opened Wrappers
  import opened Sql
  import opened Transactions

  /** Where a connection is; a dropped one is closed and not used again. */
  datatype Place = Idle | Leased | Dropped

  datatype Handle = Handle(executor: Option<nat>, active: bool)

  const EMPTY_HANDLE := Handle(None, false)

  datatype World = World(sessions: seq<Session>, places: seq<Place>, handles: seq<Handle>)

  predicate IsLeased(w: World, c: nat) {
    c < |w.sessions| && c < |w.places| && w.places[c].Leased?
  }

  predicate ActiveOn(h: Handle, c: nat) {
    h.active && h.executor == Some(c)
  }

  /** Some handle has a transaction open on connection c. */
  predicate InUse(w: World, c: nat) {
    exists i :: 0 <= i < |w.handles| && ActiveOn(w.handles[i], c)
  }

  // ---- What each operation does ----

  function Connected(w: World, session: Session): World {
    w.(sessions := w.sessions + [session], places := w.places + [Leased])
  }

  function Acquired(w: World, c: nat): World
    requires c < |w.places|
  {
    w.(places := w.places[c := Leased])
  }

  function Begun(w: World, c: nat): (World, bool)
    requires c < |w.sessions|
  {
    var begun := BeginOn(w.sessions[c]);
    (w.(sessions := w.sessions[c := begun.0],
        handles := if begun.1 then w.handles + [Handle(Some(c), true)] else w.handles), begun.1)
  }

  function Changed(w: World, c: nat, session: Session): World
    requires c < |w.sessions|
  {
    w.(sessions := w.sessions[c := session])
  }

  /** Ends the transaction of handle h on its session, as commit or as rollback. */
  function Ended(w: World, h: nat, commits: bool): (r: World)
    requires h < |w.handles|
    ensures |r.handles| == |w.handles| && |r.sessions| == |w.sessions| && r.places == w.places
  {
    var handle := w.handles[h];
    if !handle.active || handle.executor.None? || handle.executor.value >= |w.sessions| then w
    else
      var c := handle.executor.value;
      var session := if commits then CommitOn(w.sessions[c]).0 else RollbackOn(w.sessions[c]);
      w.(sessions := w.sessions[c := session], handles := w.handles[h := handle.(active := false)])
  }

  function Moved(w: World, h: nat): World
    requires h < |w.handles|
  {
    w.(handles := w.handles[h := EMPTY_HANDLE] + [w.handles[h]])
  }

  function Assigned(w: World, g: nat, h: nat): World
    requires g < |w.handles| && h < |w.handles|
  {
    if g == h then w
    else
      var w1 := Ended(w, g, false);
      w1.(handles := w1.handles[g := w1.handles[h]][h := EMPTY_HANDLE])
  }

  /** The lease gives its connection back, whatever state that is in. */
  function Released(w: World, c: nat): World
    requires c < |w.sessions| && c < |w.places|
  {
    w.(places := w.places[c := if w.sessions[c].poisoned then Dropped else Idle])
  }

  /** The handles among the first n that scope f declared are destroyed, last to first. */
  function Unwound(w: World, owners: seq<nat>, f: nat, n: nat): (r: World)
    requires n <= |w.handles| && n <= |owners|
    ensures |r.handles| == |w.handles| && |r.sessions| == |w.sessions| && r.places == w.places
    decreases n
  {
    if n == 0 then w
    else Unwound(if owners[n - 1] == f then Ended(w, n - 1, false) else w, owners, f, n - 1)
  }

  // ---- Scopes ----

  /** `entered` while the block that holds the transaction has been entered and not left. */
  datatype Scope = Scope(connection: nat, open: bool, entered: bool)

  /** `owners` tells in which scope each handle was declared. */
  datatype System = System(world: World, scopes: seq<Scope>, owners: seq<nat>)

  datatype Action =
    | Connect(db: Database, fates: seq<Fate>, env: Environment)
    | Acquire(connection: nat)
    | Begin(scope: nat)
    | Work(scope: nat, stmt: Statement)
    | Break(scope: nat)
    | Move(handle: nat)
    | Assign(target: nat, handle: nat)
    | Commit(handle: nat)
    | Rollback(handle: nat)
    | Destroy(handle: nat)
    | Leave(scope: nat)
    | Close(scope: nat)

  /** The indices of a system fit together. */
  predicate Formed(s: System) {
    |s.owners| == |s.world.handles| && |s.world.places| == |s.world.sessions| &&
    (forall h :: 0 <= h < |s.owners| ==> s.owners[h] < |s.scopes|) &&
    (forall f :: 0 <= f < |s.scopes| ==> s.scopes[f].connection < |s.world.sessions|)
  }

  predicate IsOpen(s: System, f: nat) {
    f < |s.scopes| && s.scopes[f].open
  }

  /** The handle is a variable in scope. */
  predicate InScope(s: System, h: nat) {
    h < |s.owners| && IsOpen(s, s.owners[h]) && s.scopes[s.owners[h]].entered
  }

  /**
   What the text of the program allows, whatever the state of handles and sessions: a transaction
   is begun outside the block of another one, handles are used where they are declared and moved
   within their scope, and repositories send data statements only.
   */
  predicate Enabled(s: System, a: Action) {
    match a
    case Connect(_, _, _) => true
    case Acquire(c) => c < |s.world.places| && s.world.places[c].Idle?
    case Begin(f) => IsOpen(s, f) && !s.scopes[f].entered
    case Work(f, stmt) => IsOpen(s, f) && !stmt.Start? && !stmt.Commit? && !stmt.Rollback?
    case Break(f) => IsOpen(s, f)
    case Assign(g, h) => InScope(s, g) && InScope(s, h) && s.owners[g] == s.owners[h]
    case Leave(f) => IsOpen(s, f)
    case Close(f) => IsOpen(s, f)
    case _ => InScope(s, a.handle)
  }

  /** Leaving a block destroys the handles declared in it. */
  function Left(s: System, f: nat): (r: System)
    requires Formed(s) && f < |s.scopes|
    ensures Formed(r)
  {
    s.(world := Unwound(s.world, s.owners, f, |s.owners|), scopes := s.scopes[f := s.scopes[f].(entered := false)])
  }

  function Entered(s: System, w: World, c: nat): System {
    s.(world := w, scopes := s.scopes + [Scope(c, true, false)])
  }

  function Step(s: System, a: Action): (r: System)
    requires Formed(s) && Enabled(s, a)
    ensures Formed(r)
  {
    var w := s.world;
    match a
    case Connect(db, fates, env) => Entered(s, Connected(w, Sql.Open(db, fates, env)), |w.sessions|)
    case Acquire(c) => Entered(s, Acquired(w, c), c)
    case Begin(f) =>
      var begun := Begun(w, s.scopes[f].connection);
      System(begun.0, s.scopes[f := s.scopes[f].(entered := begun.1)],
             if begun.1 then s.owners + [f] else s.owners)
    case Work(f, stmt) =>
      var c := s.scopes[f].connection;
      s.(world := Changed(w, c, Send(w.sessions[c], stmt).0))
    case Break(f) =>
      var c := s.scopes[f].connection;
      s.(world := Changed(w, c, Poison(w.sessions[c])))
    case Move(h) => s.(world := Moved(w, h), owners := s.owners + [s.owners[h]])
    case Assign(g, h) => s.(world := Assigned(w, g, h))
    case Commit(h) => s.(world := Ended(w, h, true))
    case Rollback(h) => s.(world := Ended(w, h, false))
    case Destroy(h) => s.(world := Ended(w, h, false))
    case Leave(f) => Left(s, f)
    case Close(f) =>
      var left := Left(s, f);
      left.(world := Released(left.world, s.scopes[f].connection),
            scopes := left.scopes[f := left.scopes[f].(open := false)])
  }

  const START := System(World([], [], []), [], [])

  predicate Possible(s: System, actions: seq<Action>)
    requires Formed(s)
    decreases |actions|
  {
    actions == [] || (Enabled(s, actions[0]) && Possible(Step(s, actions[0]), actions[1..]))
  }

  function Run(s: System, actions: seq<Action>): (r: System)
    requires Formed(s) && Possible(s, actions)
    ensures Formed(r)
    decreases |actions|
  {
    if actions == [] then s else Run(Step(s, actions[0]), actions[1..])
  }

  // ---- The statement trace of one session ----

  /** `Doubtful` follows a START, COMMIT or ROLLBACK whose outcome is unknown. */
  datatype Phase = Closed | Opened | Doubtful | Broken

  function After(phase: Phase, e: Event): Phase {
    if e.fate.Refused? then phase
    else if phase.Doubtful? || phase.Broken? then Broken
    else if e.stmt.Start? then
      if phase.Opened? then Broken else if e.fate.Answered? then Opened else Doubtful
    else if e.stmt.Commit? || e.stmt.Rollback? then
      if phase.Closed? then Broken else if e.fate.Answered? then Closed else Doubtful
    else phase
  }

  function Trace(log: seq<Event>): Phase {
    if log == [] then Closed else After(Trace(log[..|log| - 1]), log[|log| - 1])
  }

  lemma TraceStep(log: seq<Event>, e: Event)
    ensures Trace(log + [e]) == After(Trace(log), e)
  {
    assert (log + [e])[..|log|] == log;
  }

  /** The isolation is set, and the answer awaited, directly before every START. */
  predicate Isolated(log: seq<Event>) {
    forall k :: 0 <= k < |log| && log[k].stmt.Start? ==> k > 0 && log[k - 1] == Event(SetIsolation, Answered)
  }

  /** What the trace says agrees with the server, unless the connection is poisoned. */
  predicate Lawful(s: Session) {
    !Trace(s.log).Broken? && Isolated(s.log) &&
    (!s.poisoned ==> Trace(s.log) == if s.txn.Some? then Opened else Closed)
  }

  lemma BeginIsLawful(s: Session)
    requires Lawful(s) && (s.poisoned || s.txn.None?)
    ensures Lawful(BeginOn(s).0)
    ensures if BeginOn(s).1 then !BeginOn(s).0.poisoned && BeginOn(s).0.txn.Some? else BeginOn(s).0.poisoned
  {
    hide Trace;
    var isolated := Send(s, SetIsolation).0;
    TraceStep(s.log, Event(SetIsolation, NextFate(s)));
    TraceStep(isolated.log, Event(Statement.Start, NextFate(isolated)));
  }

  lemma EndIsLawful(s: Session, commits: bool)
    requires Lawful(s) && (s.poisoned || s.txn.Some?)
    ensures
      var r := if commits then CommitOn(s).0 else RollbackOn(s);
      Lawful(r) && (r.poisoned || r.txn.None?) && (s.poisoned ==> r.poisoned)
  {
    hide Trace;
    TraceStep(s.log, Event(if commits then Statement.Commit else Statement.Rollback, NextFate(s)));
  }

  lemma WorkIsLawful(s: Session, stmt: Statement)
    requires Lawful(s) && !stmt.Start? && !stmt.Commit? && !stmt.Rollback?
    ensures
      var r := Send(s, stmt).0;
      Lawful(r) && (r.poisoned || (!s.poisoned && r.txn.Some? == s.txn.Some?))
  {
    hide Trace, Perform;
    TraceStep(s.log, Event(stmt, NextFate(s)));
  }

  // ---- What every mix of actions keeps ----

  /** A connection is in an open transaction exactly while one handle is active on it. */
  predicate Owned(w: World, c: nat)
    requires c < |w.sessions|
  {
    w.sessions[c].poisoned || (w.sessions[c].txn.Some? <==> InUse(w, c))
  }

  predicate HandlesApart(w: World) {
    (forall i :: 0 <= i < |w.handles| && w.handles[i].active ==>
      w.handles[i].executor.Some? && IsLeased(w, w.handles[i].executor.value)) &&
    (forall i, j :: 0 <= i < j < |w.handles| && w.handles[i].active && w.handles[j].active ==>
      w.handles[i].executor != w.handles[j].executor)
  }

  predicate Sound(w: World) {
    |w.places| == |w.sessions| && HandlesApart(w) &&
    (forall c :: 0 <= c < |w.sessions| ==> Lawful(w.sessions[c]) && Owned(w, c)) &&
    (forall c :: 0 <= c < |w.places| && w.places[c].Idle? ==> Fit(w.sessions[c]))
  }

  /** Replacing one session keeps the world sound when the new one is lawful and as much in use. */
  lemma SessionChanges(w: World, c: nat, session: Session)
    requires Sound(w) && IsLeased(w, c)
    requires Lawful(session) && (session.poisoned || (session.txn.Some? <==> InUse(w, c)))
    ensures Sound(w.(sessions := w.sessions[c := session]))
  {
    hide Lawful, Fit;
    var w1 := w.(sessions := w.sessions[c := session]);
    forall d | 0 <= d < |w1.sessions|
      ensures Lawful(w1.sessions[d]) && Owned(w1, d)
    {
      assert Owned(w, d);
      assert InUse(w1, d) <==> InUse(w, d);
    }
  }

  lemma NewHandle(w: World, c: nat, session: Session)
    requires Sound(w) && IsLeased(w, c) && !InUse(w, c)
    requires Lawful(session) && !session.poisoned && session.txn.Some?
    ensures Sound(w.(sessions := w.sessions[c := session], handles := w.handles + [Handle(Some(c), true)]))
  {
    hide Lawful, Fit;
    var w1 := w.(sessions := w.sessions[c := session], handles := w.handles + [Handle(Some(c), true)]);
    forall d | 0 <= d < |w1.sessions|
      ensures Lawful(w1.sessions[d]) && Owned(w1, d)
    {
      assert Owned(w, d);
      assert ActiveOn(w1.handles[|w.handles|], c);
      if InUse(w, d) {
        var i :| 0 <= i < |w.handles| && ActiveOn(w.handles[i], d);
        assert ActiveOn(w1.handles[i], d);
      }
    }
    forall i | 0 <= i < |w.handles| && w.handles[i].active
      ensures w.handles[i].executor != Some(c)
    {
      assert !ActiveOn(w.handles[i], c);
    }
  }

  /** After a handle has ended its transaction nobody else is active on that connection. */
  lemma EndedKeeps(w: World, h: nat, commits: bool)
    requires Sound(w) && h < |w.handles|
    ensures Sound(Ended(w, h, commits)) && !Ended(w, h, commits).handles[h].active
    ensures |Ended(w, h, commits).handles| == |w.handles|
  {
    hide Lawful, Fit, CommitOn, RollbackOn;
    var handle := w.handles[h];
    if handle.active {
      var c := handle.executor.value;
      assert ActiveOn(w.handles[h], c);
      EndIsLawful(w.sessions[c], commits);
      var w1 := Ended(w, h, commits);
      forall d | 0 <= d < |w1.sessions|
        ensures Lawful(w1.sessions[d]) && Owned(w1, d)
      {
        assert Owned(w, d);
        EndedInUse(w, h, c, d, commits);
      }
    }
  }

  lemma EndedInUse(w: World, h: nat, c: nat, d: nat, commits: bool)
    requires HandlesApart(w) && h < |w.handles| && ActiveOn(w.handles[h], c)
    ensures InUse(Ended(w, h, commits), d) <==> InUse(w, d) && d != c
  {
    hide CommitOn, RollbackOn;
    var w1 := Ended(w, h, commits);
    if InUse(w1, d) {
      var i :| 0 <= i < |w1.handles| && ActiveOn(w1.handles[i], d);
      assert ActiveOn(w.handles[i], d);
    }
    if InUse(w, d) && d != c {
      var i :| 0 <= i < |w.handles| && ActiveOn(w.handles[i], d);
      assert ActiveOn(w1.handles[i], d);
    }
  }

  /** Handing an active transaction to an inactive handle changes nothing for its connection. */
  lemma HandedOver(w: World, w1: World, from: nat, to: nat)
    requires Sound(w) && from < |w.handles| && from != to < |w1.handles|
    requires to < |w.handles| ==> !w.handles[to].active
    requires |w.handles| <= |w1.handles| && w1 == w.(handles := w1.handles)
    requires w1.handles[from] == EMPTY_HANDLE && w1.handles[to] == w.handles[from]
    requires forall i :: 0 <= i < |w1.handles| && i != from && i != to ==>
      i < |w.handles| && w1.handles[i] == w.handles[i]
    ensures Sound(w1)
  {
    hide Lawful, Fit;
    forall d | 0 <= d < |w1.sessions|
      ensures Lawful(w1.sessions[d]) && Owned(w1, d)
    {
      assert Owned(w, d);
      if InUse(w, d) {
        var i :| 0 <= i < |w.handles| && ActiveOn(w.handles[i], d);
        assert ActiveOn(w1.handles[if i == from then to else i], d);
      }
      if InUse(w1, d) {
        var i :| 0 <= i < |w1.handles| && ActiveOn(w1.handles[i], d);
        assert ActiveOn(w.handles[if i == to then from else i], d);
      }
    }
  }

  lemma PlaceChanges(w: World, c: nat, place: Place)
    requires Sound(w) && c < |w.places| && !InUse(w, c)
    requires place.Idle? ==> !w.sessions[c].poisoned
    ensures Sound(w.(places := w.places[c := place]))
  {
    hide Lawful;
    var w1 := w.(places := w.places[c := place]);
    forall d | 0 <= d < |w1.sessions|
      ensures Lawful(w1.sessions[d]) && Owned(w1, d)
    {
      assert Owned(w, d);
      assert InUse(w1, d) <==> InUse(w, d);
    }
    assert Owned(w, c);
    forall i | 0 <= i < |w.handles| && w.handles[i].active
      ensures w.handles[i].executor != Some(c)
    {
      assert !ActiveOn(w.handles[i], c);
    }
  }

  lemma IdleIsFree(w: World, c: nat)
    requires Sound(w) && c < |w.places| && !w.places[c].Leased?
    ensures !InUse(w, c)
  {
    hide Lawful, Fit, Owned;
    forall i | 0 <= i < |w.handles|
      ensures !ActiveOn(w.handles[i], c)
    {
    }
  }

  lemma ConnectedKeeps(w: World, session: Session)
    requires Sound(w) && Lawful(session) && Fit(session)
    ensures Sound(Connected(w, session))
  {
    hide Lawful;
    var w1 := Connected(w, session);
    forall d | 0 <= d < |w1.sessions|
      ensures Lawful(w1.sessions[d]) && Owned(w1, d)
    {
      assert InUse(w1, d) <==> InUse(w, d);
      if d < |w.sessions| {
        assert Owned(w, d);
      } else {
        assert forall i :: 0 <= i < |w.handles| ==> !ActiveOn(w.handles[i], d);
      }
    }
  }

  lemma BeginKeeps(w: World, c: nat)
    requires Sound(w) && IsLeased(w, c) && !InUse(w, c)
    ensures Sound(Begun(w, c).0)
  {
    hide Lawful, InUse, BeginOn, HandlesApart, Fit;
    var session := w.sessions[c];
    assert Lawful(session) && Owned(w, c);
    BeginIsLawful(session);
    if BeginOn(session).1 {
      NewHandle(w, c, BeginOn(session).0);
    } else {
      SessionChanges(w, c, BeginOn(session).0);
    }
  }

  lemma WorkKeeps(w: World, c: nat, stmt: Statement)
    requires Sound(w) && IsLeased(w, c) && !stmt.Start? && !stmt.Commit? && !stmt.Rollback?
    ensures Sound(Changed(w, c, Send(w.sessions[c], stmt).0))
  {
    hide Lawful, InUse, Send, HandlesApart, Fit;
    assert Lawful(w.sessions[c]) && Owned(w, c);
    WorkIsLawful(w.sessions[c], stmt);
    SessionChanges(w, c, Send(w.sessions[c], stmt).0);
  }

  lemma BreakKeeps(w: World, c: nat)
    requires Sound(w) && IsLeased(w, c)
    ensures Sound(Changed(w, c, Poison(w.sessions[c])))
  {
    hide InUse, HandlesApart, Fit, Trace;
    assert Lawful(w.sessions[c]);
    SessionChanges(w, c, Poison(w.sessions[c]));
  }

  lemma AssignKeeps(w: World, g: nat, h: nat)
    requires Sound(w) && g < |w.handles| && h < |w.handles|
    ensures Sound(Assigned(w, g, h))
  {
    if g != h {
      hide Sound, Ended;
      EndedKeeps(w, g, false);
      HandedOver(Ended(w, g, false), Assigned(w, g, h), h, g);
    }
  }

  lemma NoTrace()
    ensures Trace([]) == Closed
  {
  }

  lemma ReleaseKeeps(w: World, c: nat)
    requires Sound(w) && IsLeased(w, c) && !InUse(w, c)
    ensures Sound(Released(w, c))
  {
    hide Lawful, InUse;
    PlaceChanges(w, c, if w.sessions[c].poisoned then Dropped else Idle);
  }

  lemma EndedAlone(w: World, h: nat)
    requires h < |w.handles|
    ensures forall k :: 0 <= k < |w.handles| && k != h ==> Ended(w, h, false).handles[k] == w.handles[k]
  {
    hide RollbackOn, CommitOn;
  }

  /** The handles of scope f among the first n are inactive, and the others are as they were. */
  predicate Unwinds(before: seq<Handle>, after: seq<Handle>, owners: seq<nat>, f: nat, n: nat) {
    |after| == |before| == |owners| &&
    forall h :: 0 <= h < |owners| ==>
      if h < n && owners[h] == f then !after[h].active else after[h] == before[h]
  }

  lemma OneMoreUnwound(before: seq<Handle>, between: seq<Handle>, after: seq<Handle>,
                       owners: seq<nat>, f: nat, n: nat)
    requires 0 < n <= |owners| == |before| == |between| && Unwinds(between, after, owners, f, n - 1)
    requires if owners[n - 1] == f then !between[n - 1].active else between[n - 1] == before[n - 1]
    requires forall h :: 0 <= h < |before| && h != n - 1 ==> between[h] == before[h]
    ensures Unwinds(before, after, owners, f, n)
  {
  }

  /** Unwinding ends every handle of the scope and leaves the others as they are. */
  lemma {:induction false} UnwoundKeeps(w: World, owners: seq<nat>, f: nat, n: nat)
    requires Sound(w) && n <= |owners| == |w.handles|
    ensures
      var r := Unwound(w, owners, f, n);
      Sound(r) && Unwinds(w.handles, r.handles, owners, f, n)
    decreases n
  {
    if n > 0 {
      hide Sound, Ended, Unwinds;
      var w1 := if owners[n - 1] == f then Ended(w, n - 1, false) else w;
      EndedKeeps(w, n - 1, false);
      EndedAlone(w, n - 1);
      UnwoundKeeps(w1, owners, f, n - 1);
      OneMoreUnwound(w.handles, w1.handles, Unwound(w1, owners, f, n - 1).handles, owners, f, n);
    }
  }

  /** An active handle is in scope, and on the connection of its scope, which no other scope has. */
  predicate Scoped(s: System)
    requires Formed(s)
  {
    (forall h :: 0 <= h < |s.owners| && s.world.handles[h].active ==>
      InScope(s, h) && s.world.handles[h].executor == Some(s.scopes[s.owners[h]].connection)) &&
    (forall f :: 0 <= f < |s.scopes| && s.scopes[f].open ==> IsLeased(s.world, s.scopes[f].connection)) &&
    (forall f, g :: 0 <= f < g < |s.scopes| && s.scopes[f].open && s.scopes[g].open ==>
      s.scopes[f].connection != s.scopes[g].connection)
  }

  /** Outside the block of a transaction no handle is active on the connection of a scope. */
  lemma OutsideBlockIsFree(s: System, f: nat)
    requires Formed(s) && Scoped(s) && IsOpen(s, f) && !s.scopes[f].entered
    ensures !InUse(s.world, s.scopes[f].connection)
  {
    forall h | 0 <= h < |s.world.handles|
      ensures !ActiveOn(s.world.handles[h], s.scopes[f].connection)
    {
    }
  }

  lemma LeftKeeps(s: System, f: nat)
    requires Formed(s) && Sound(s.world) && Scoped(s) && IsOpen(s, f)
    ensures Sound(Left(s, f).world) && Scoped(Left(s, f))
    ensures IsOpen(Left(s, f), f) && !Left(s, f).scopes[f].entered
  {
    hide Sound, Unwound;
    UnwoundKeeps(s.world, s.owners, f, |s.owners|);
  }

  lemma OpenedKeeps(s: System, a: Action)
    requires Formed(s) && Sound(s.world) && Scoped(s) && Enabled(s, a) && (a.Connect? || a.Acquire?)
    ensures Sound(Step(s, a).world) && Scoped(Step(s, a))
  {
    hide Sound, Lawful, Trace;
    if a.Connect? {
      NoTrace();
      assert Lawful(Sql.Open(a.db, a.fates, a.env)) by { LawfulAtFirst(a.db, a.fates, a.env); }
      ConnectedKeeps(s.world, Sql.Open(a.db, a.fates, a.env));
    } else {
      IdleIsFree(s.world, a.connection);
      PlaceChanges(s.world, a.connection, Leased);
    }
  }

  lemma LawfulAtFirst(db: Database, fates: seq<Fate>, env: Environment)
    ensures Lawful(Sql.Open(db, fates, env))
  {
  }

  lemma BegunKeeps(s: System, f: nat)
    requires Formed(s) && Sound(s.world) && Scoped(s) && Enabled(s, Begin(f))
    ensures Sound(Step(s, Begin(f)).world) && Scoped(Step(s, Begin(f)))
  {
    hide Sound, BeginOn;
    OutsideBlockIsFree(s, f);
    BeginKeeps(s.world, s.scopes[f].connection);
  }

  lemma ClosedKeeps(s: System, f: nat)
    requires Formed(s) && Sound(s.world) && Scoped(s) && IsOpen(s, f)
    ensures Sound(Step(s, Close(f)).world) && Scoped(Step(s, Close(f)))
  {
    hide Sound, Left;
    var left := Left(s, f);
    LeftKeeps(s, f);
    OutsideBlockIsFree(left, f);
    LeftScopes(s, f);
    ReleaseKeeps(left.world, s.scopes[f].connection);
  }

  lemma LeftScopes(s: System, f: nat)
    requires Formed(s) && f < |s.scopes|
    ensures Left(s, f).scopes == s.scopes[f := s.scopes[f].(entered := false)] && Left(s, f).owners == s.owners
  {
  }

  /** Ending a transaction activates no handle, and leaves leases and scopes alone. */
  lemma EndedScoped(s: System, h: nat, commits: bool)
    requires Formed(s) && Sound(s.world) && Scoped(s) && h < |s.world.handles|
    ensures
      var r := s.(world := Ended(s.world, h, commits));
      Formed(r) && Sound(r.world) && Scoped(r) && !r.world.handles[h].active
  {
    EndedKeeps(s.world, h, commits);
    hide Sound, CommitOn, RollbackOn;
  }

  lemma MovedScoped(s: System, h: nat)
    requires Formed(s) && Sound(s.world) && Scoped(s) && InScope(s, h)
    ensures
      var r := s.(world := Moved(s.world, h), owners := s.owners + [s.owners[h]]);
      Formed(r) && Sound(r.world) && Scoped(r)
  {
    HandedOver(s.world, Moved(s.world, h), h, |s.world.handles|);
    hide Sound;
  }

  lemma AssignedScoped(s: System, g: nat, h: nat)
    requires Formed(s) && Sound(s.world) && Scoped(s) && InScope(s, g) && InScope(s, h)
    requires s.owners[g] == s.owners[h]
    ensures
      var r := s.(world := Assigned(s.world, g, h));
      Formed(r) && Sound(r.world) && Scoped(r)
  {
    if g != h {
      EndedScoped(s, g, false);
      AssignKeeps(s.world, g, h);
      hide Sound, Ended;
    }
  }

  lemma WorkScoped(s: System, f: nat, stmt: Statement)
    requires Formed(s) && Sound(s.world) && Scoped(s) && Enabled(s, Work(f, stmt))
    ensures Sound(Step(s, Work(f, stmt)).world) && Scoped(Step(s, Work(f, stmt)))
  {
    WorkKeeps(s.world, s.scopes[f].connection, stmt);
    hide Sound, Send;
  }

  lemma BreakScoped(s: System, f: nat)
    requires Formed(s) && Sound(s.world) && Scoped(s) && IsOpen(s, f)
    ensures Sound(Step(s, Break(f)).world) && Scoped(Step(s, Break(f)))
  {
    BreakKeeps(s.world, s.scopes[f].connection);
    hide Sound;
  }

  lemma {:induction false} StepKeeps(s: System, a: Action)
    requires Formed(s) && Sound(s.world) && Scoped(s) && Enabled(s, a)
    ensures Sound(Step(s, a).world) && Scoped(Step(s, a))
  {
    hide Sound, Scoped, Send, BeginOn, Left, Moved, Assigned, Ended, Released, Begun;
    match a
    case Connect(_, _, _) => OpenedKeeps(s, a);
    case Acquire(_) => OpenedKeeps(s, a);
    case Begin(f) => BegunKeeps(s, f);
    case Work(f, stmt) => WorkScoped(s, f, stmt);
    case Break(f) => BreakScoped(s, f);
    case Leave(f) => LeftKeeps(s, f);
    case Close(f) => ClosedKeeps(s, f);
    case Move(h) => MovedScoped(s, h);
    case Assign(g, h) => AssignedScoped(s, g, h);
    case Commit(h) => EndedScoped(s, h, true);
    case Rollback(h) => EndedScoped(s, h, false);
    case Destroy(h) => EndedScoped(s, h, false);
  }

  lemma {:induction false} Always(s: System, actions: seq<Action>)
    requires Formed(s) && Sound(s.world) && Scoped(s) && Possible(s, actions)
    ensures Sound(Run(s, actions).world) && Scoped(Run(s, actions))
    decreases |actions|
  {
    hide Sound, Scoped, Step;
    if actions != [] {
      StepKeeps(s, actions[0]);
      Always(Step(s, actions[0]), actions[1..]);
    }
  }

  /**
   Whatever mix of actions has run: an idle connection is neither poisoned nor in a transaction,
   no two handles are active on one connection, every trace is lawful, and a handle is active only
   in the open scope whose lease holds its connection.
   */
  lemma {:induction false} EveryMix(actions: seq<Action>)
    requires Possible(START, actions)
    ensures Sound(Run(START, actions).world) && Scoped(Run(START, actions))
  {
    Always(START, actions);
  }

  /** When a scope is closed, its handles have ended before its lease gives the connection back. */
  lemma {:induction false} ReleasedOnlyWhenFree(actions: seq<Action>, f: nat)
    requires Possible(START, actions) && IsOpen(Run(START, actions), f)
    ensures
      var s := Run(START, actions);
      var left := Left(s, f).world;
      !InUse(left, s.scopes[f].connection) && Step(s, Close(f)).world == Released(left, s.scopes[f].connection) &&
      (left.sessions[s.scopes[f].connection].poisoned || Fit(left.sessions[s.scopes[f].connection]))
  {
    EveryMix(actions);
    var s := Run(START, actions);
    hide Run, Possible, Lawful, Unwound;
    LeftKeeps(s, f);
    OutsideBlockIsFree(Left(s, f), f);
    assert Owned(Left(s, f).world, s.scopes[f].connection);
  }

  /** A working connection can be put back exactly when no handle is active on it. */
  lemma {:induction false} ReleasableExactly(w: World, c: nat)
    requires Sound(w) && IsLeased(w, c) && !w.sessions[c].poisoned
    ensures Fit(w.sessions[c]) <==> !InUse(w, c)
  {
    hide Lawful, InUse;
    assert Owned(w, c);
  }

  /**
   Wherever handles have been moved to, even out of their scope: closing scope f gives back a
   working connection that is fit for use exactly when every handle active on it belongs to f.
   The source moves no transaction to another lease, so the condition always holds there.
   */
  lemma {:induction false} ClosingIsSafeExactly(s: System, f: nat)
    requires Formed(s) && Sound(s.world) && IsOpen(s, f) && IsLeased(s.world, s.scopes[f].connection)
    requires !Left(s, f).world.sessions[s.scopes[f].connection].poisoned
    ensures
      var c := s.scopes[f].connection;
      Fit(Left(s, f).world.sessions[c]) <==>
      forall h :: 0 <= h < |s.owners| && ActiveOn(s.world.handles[h], c) ==> s.owners[h] == f
  {
    hide Lawful;
    var c, left := s.scopes[f].connection, Left(s, f).world;
    UnwoundKeeps(s.world, s.owners, f, |s.owners|);
    ReleasableExactly(left, c);
    if InUse(left, c) {
      var h :| 0 <= h < |left.handles| && ActiveOn(left.handles[h], c);
      assert ActiveOn(s.world.handles[h], c) && s.owners[h] != f;
    }
    if h :| 0 <= h < |s.owners| && ActiveOn(s.world.handles[h], c) && s.owners[h] != f {
      assert ActiveOn(left.handles[h], c);
    }
  }

  // ---- Nothing is committed by accident ----

  /** The committed rows of every connection are as before. */
  predicate SameRows(w: World, w': World) {
    |w.sessions| <= |w'.sessions| &&
    forall c :: 0 <= c < |w.sessions| ==> w'.sessions[c].db == w.sessions[c].db
  }

  lemma RolledBackSame(w: World, h: nat)
    requires h < |w.handles|
    ensures SameRows(w, Ended(w, h, false))
  {
  }

  lemma {:induction false} UnwoundSame(w: World, owners: seq<nat>, f: nat, n: nat)
    requires n <= |w.handles| && n <= |owners|
    ensures SameRows(w, Unwound(w, owners, f, n))
    decreases n
  {
    if n > 0 {
      hide Ended;
      RolledBackSame(w, n - 1);
      UnwoundSame(if owners[n - 1] == f then Ended(w, n - 1, false) else w, owners, f, n - 1);
    }
  }

  lemma BegunSame(s: System, f: nat)
    requires Formed(s) && Sound(s.world) && Scoped(s) && Enabled(s, Begin(f))
    ensures SameRows(s.world, Step(s, Begin(f)).world)
  {
    hide Sound, Scoped, BeginOn;
    OutsideBlockIsFree(s, f);
    var c := s.scopes[f].connection;
    assert Owned(s.world, c) by {
      SoundOwned(s.world, c);
    }
    BeginCommitsNothing(s.world.sessions[c]);
  }

  lemma SoundOwned(w: World, c: nat)
    requires Sound(w) && c < |w.sessions|
    ensures Owned(w, c)
  {
  }

  lemma BeginCommitsNothing(s: Session)
    requires s.poisoned || s.txn.None?
    ensures BeginOn(s).0.db == s.db
  {
  }

  lemma WorkInsideSame(s: Session, stmt: Statement)
    requires s.txn.Some? && !stmt.Start? && !stmt.Commit? && !stmt.InsertGoods?
    ensures Send(s, stmt).0.db == s.db
  {
  }

  /**
   Only an explicit COMMIT commits: beginning, moving and assigning handles, rolling back, destroying them,
   leaving a block, closing a scope, and statements inside a transaction all leave the committed
   rows alone, but for the counter that an insert draws from.
   */
  lemma {:induction false} OnlyCommitCommits(s: System, a: Action)
    requires Formed(s) && Sound(s.world) && Scoped(s) && Enabled(s, a) && !a.Commit?
    requires a.Work? ==> s.world.sessions[s.scopes[a.scope].connection].txn.Some? && !a.stmt.InsertGoods?
    ensures SameRows(s.world, Step(s, a).world)
  {
    hide Sound, Scoped, Send, BeginOn, Ended, Begun, RollbackOn, CommitOn;
    match a
    case Begin(f) => BegunSame(s, f);
    case Work(f, stmt) => WorkInsideSame(s.world.sessions[s.scopes[f].connection], stmt);
    case Leave(f) => UnwoundSame(s.world, s.owners, f, |s.owners|);
    case Close(f) => UnwoundSame(s.world, s.owners, f, |s.owners|);
    case Assign(g, h) => RolledBackSame(s.world, g);
    case Rollback(h) => RolledBackSame(s.world, h);
    case Destroy(h) => RolledBackSame(s.world, h);
    case _ =>
  }

  // ---- Bracketing counted ----

  function Started(log: seq<Event>): nat {
    if log == [] then 0
    else
      var e := log[|log| - 1];
      Started(log[..|log| - 1]) + if e.stmt.Start? && e.fate.Answered? then 1 else 0
  }

  function Ends(log: seq<Event>): nat {
    if log == [] then 0
    else
      var e := log[|log| - 1];
      Ends(log[..|log| - 1]) + if (e.stmt.Commit? || e.stmt.Rollback?) && e.fate.Answered? then 1 else 0
  }

  lemma {:induction false} PrefixUnbroken(log: seq<Event>, k: nat)
    requires k <= |log| && !Trace(log).Broken?
    ensures !Trace(log[..k]).Broken?
    decreases |log|
  {
    if k < |log| {
      PrefixUnbroken(log[..|log| - 1], k);
      assert log[..|log| - 1][..k] == log[..k];
    } else {
      assert log[..k] == log;
    }
  }

  lemma {:induction false} CountsOf(log: seq<Event>)
    requires !Trace(log).Broken?
    ensures Trace(log).Closed? ==> Started(log) == Ends(log)
    ensures Trace(log).Opened? ==> Started(log) == Ends(log) + 1
    ensures Ends(log) <= Started(log) <= Ends(log) + 1
  {
    if log != [] {
      PrefixUnbroken(log, |log| - 1);
      CountsOf(log[..|log| - 1]);
    }
  }

  /**
   At every moment of every session each successful START has been closed by exactly one COMMIT or
   ROLLBACK, except that the last may still be open; in an idle connection it is not.
   */
  lemma {:induction false} WellBracketed(actions: seq<Action>, c: nat, k: nat)
    requires Possible(START, actions)
    requires c < |Run(START, actions).world.sessions| && k <= |Run(START, actions).world.sessions[c].log|
    ensures
      var w := Run(START, actions).world;
      var log := w.sessions[c].log;
      Ends(log[..k]) <= Started(log[..k]) <= Ends(log[..k]) + 1 &&
      (c < |w.places| && w.places[c].Idle? ==> Started(log) == Ends(log))
  {
    EveryMix(actions);
    var w := Run(START, actions).world;
    hide Run, Possible, Trace, Started, Ends;
    var log := w.sessions[c].log;
    assert Lawful(w.sessions[c]);
    PrefixUnbroken(log, k);
    CountsOf(log[..k]);
    CountsOf(log);
  }
}
