/**
 Threads sharing one ConnectionPool (connection_pool.cpp:51-99). Each critical section under the
 mutex is one step, and so is each unlocked stretch between two of them: creating a connection,
 and the notification owed after a creation that failed. Connections are numbered as created.
 */
module PoolThreads {
  import opened ConnectionPools

  /** Where one caller of the pool is; a thread with several leases counts once for each. */
  datatype Thread =
    | Outside
    | Asleep
    | Notified
    | TimedOut
    | Creating
    | OwesNotify
    | Holding(connection: nat)

  datatype System = System(pool: Pool<nat>, threads: seq<Thread>, poisoned: set<nat>, made: nat)

  /** `woken` is the sleeper that a notify_one happens to choose. */
  datatype Action =
    | Arrive(thread: nat)
    | Recheck(thread: nat, expired: bool)
    | Stir(thread: nat)
    | Expire(thread: nat)
    | LastCheck(thread: nat)
    | Created(thread: nat)
    | CreationFailed(thread: nat)
    | Announce(thread: nat, woken: nat)
    | Break(thread: nat)
    | GiveBack(thread: nat, woken: nat)

  function Idle(threads: nat): (r: seq<Thread>)
    ensures |r| == threads
  {
    if threads == 0 then [] else [Outside] + Idle(threads - 1)
  }

  function Start(capacity: nat, threads: nat): System {
    System(Pool(capacity, [], 0), Idle(threads), {}, 0)
  }

  function Put(s: System, t: nat, thread: Thread): System
    requires t < |s.threads|
  {
    s.(threads := s.threads[t := thread])
  }

  predicate SomeoneSleeps(s: System) {
    Asleep in s.threads
  }

  /** A notify_one wakes one sleeper if there is any, and is otherwise without effect. */
  predicate MayWake(s: System, woken: nat) {
    SomeoneSleeps(s) ==> woken < |s.threads| && s.threads[woken].Asleep?
  }

  function NotifyOne(s: System, woken: nat): System
    requires MayWake(s, woken)
  {
    if SomeoneSleeps(s) then Put(s, woken, Notified) else s
  }

  /** A thread that found the pool ready leaves with an idle connection or a reserved slot. */
  function Enter(s: System, t: nat): System
    requires t < |s.threads| && Ready(s.pool)
  {
    var taken := Taken(s.pool);
    Put(s, t, match taken.1 case Some(c) => Holding(c) case None => Creating).(pool := taken.0)
  }

  /** The connection of thread t is back in the pool, or its slot is. */
  function Back(s: System, t: nat): System
    requires t < |s.threads| && s.threads[t].Holding?
  {
    var c := s.threads[t].connection;
    Put(s, t, Outside).(pool := Returned(s.pool, c, c !in s.poisoned))
  }

  predicate Enabled(s: System, a: Action) {
    a.thread < |s.threads| &&
    var thread := s.threads[a.thread];
    match a
    case Arrive(_) => thread.Outside?
    case Recheck(_, _) => thread.Notified?
    case Stir(_) => thread.Asleep?
    case Expire(_) => thread.Asleep?
    case LastCheck(_) => thread.TimedOut?
    case Created(_) => thread.Creating?
    case CreationFailed(_) => thread.Creating?
    case Announce(_, woken) => thread.OwesNotify? && MayWake(s, woken)
    case Break(_) => thread.Holding?
    case GiveBack(_, woken) => thread.Holding? && MayWake(s, woken)
  }

  function Step(s: System, a: Action): System
    requires Enabled(s, a)
  {
    var t := a.thread;
    match a
    case Arrive(_) => if Ready(s.pool) then Enter(s, t) else Put(s, t, Asleep)
    case Recheck(_, expired) =>
      if Ready(s.pool) then Enter(s, t) else Put(s, t, if expired then Outside else Asleep)
    case Stir(_) => Put(s, t, Notified)
    case Expire(_) => Put(s, t, TimedOut)
    case LastCheck(_) => if Ready(s.pool) then Enter(s, t) else Put(s, t, Outside)
    case Created(_) => Put(s, t, Holding(s.made)).(made := s.made + 1)
    case CreationFailed(_) => Put(s, t, OwesNotify).(pool := Unreserved(s.pool))
    case Announce(_, woken) => NotifyOne(Put(s, t, Outside), woken)
    case Break(_) => s.(poisoned := s.poisoned + {s.threads[t].connection})
    case GiveBack(_, woken) => NotifyOne(Back(s, t), woken)
  }

  predicate Possible(s: System, actions: seq<Action>)
    decreases |actions|
  {
    actions == [] || (Enabled(s, actions[0]) && Possible(Step(s, actions[0]), actions[1..]))
  }

  function Run(s: System, actions: seq<Action>): System
    requires Possible(s, actions)
    decreases |actions|
  {
    if actions == [] then s else Run(Step(s, actions[0]), actions[1..])
  }

  /** How many threads hold a connection, create one, sleep, and are about to look or to notify. */
  datatype Census = Census(leased: int, creating: int, asleep: int, waking: int)

  function One(t: Thread): Census {
    match t
    case Holding(_) => Census(1, 0, 0, 0)
    case Creating => Census(0, 1, 0, 0)
    case Asleep => Census(0, 0, 1, 0)
    case Notified => Census(0, 0, 0, 1)
    case OwesNotify => Census(0, 0, 0, 1)
    case _ => Census(0, 0, 0, 0)
  }

  function Plus(a: Census, b: Census): Census {
    Census(a.leased + b.leased, a.creating + b.creating, a.asleep + b.asleep, a.waking + b.waking)
  }

  function Count(threads: seq<Thread>): Census {
    if threads == [] then Census(0, 0, 0, 0) else Plus(One(threads[0]), Count(threads[1..]))
  }

  lemma {:induction false} CountUpdate(threads: seq<Thread>, t: nat, thread: Thread)
    requires t < |threads|
    ensures Plus(Count(threads[t := thread]), One(threads[t])) == Plus(Count(threads), One(thread))
  {
    hide One;
    var updated := threads[t := thread];
    if t == 0 {
      assert updated[1..] == threads[1..];
    } else {
      assert updated[1..] == threads[1..][t - 1 := thread];
      CountUpdate(threads[1..], t - 1, thread);
    }
  }

  lemma CountHead(threads: seq<Thread>)
    requires threads != []
    ensures Count(threads) == Plus(One(threads[0]), Count(threads[1..]))
  {
  }

  lemma HeadOrTail(t: Thread, threads: seq<Thread>)
    requires threads != []
    ensures t in threads <==> t == threads[0] || t in threads[1..]
  {
  }

  lemma {:induction false} CountSigns(threads: seq<Thread>)
    ensures Count(threads).leased >= 0 && Count(threads).creating >= 0
    ensures Count(threads).asleep >= 0 && Count(threads).waking >= 0
    ensures Count(threads).asleep > 0 <==> Asleep in threads
    ensures Count(threads).waking > 0 <==> Notified in threads || OwesNotify in threads
  {
    if threads == [] {
      assert Count(threads) == Census(0, 0, 0, 0);
    } else {
      hide Count;
      CountSigns(threads[1..]);
      CountHead(threads);
      HeadOrTail(Asleep, threads);
      HeadOrTail(Notified, threads);
      HeadOrTail(OwesNotify, threads);
    }
  }

  lemma OutsideCountsNothing(threads: seq<Thread>)
    ensures Count([Outside] + threads) == Count(threads)
  {
    assert ([Outside] + threads)[1..] == threads;
  }

  lemma {:induction false} CountIdle(n: nat)
    ensures Count(Idle(n)) == Census(0, 0, 0, 0)
    ensures forall i :: 0 <= i < n ==> Idle(n)[i] == Outside
  {
    if n == 0 {
      assert Count([]) == Census(0, 0, 0, 0);
    } else {
      hide Count;
      OutsideCountsNothing(Idle(n - 1));
      CountIdle(n - 1);
    }
  }

  /** Every slot in use is idle, leased or being created, and there are no more than allowed. */
  predicate Conserved(s: System) {
    var count := Count(s.threads);
    s.pool.total == |s.pool.available| + count.leased + count.creating && s.pool.total <= s.pool.capacity
  }

  /** While someone sleeps, threads about to look or to notify cover every free slot. */
  predicate Covered(s: System) {
    SomeoneSleeps(s) ==> Count(s.threads).waking >= Free(s.pool)
  }

  /** No connection is in two places, and no idle connection is poisoned. */
  predicate Apart(s: System) {
    var idle := s.pool.available;
    (forall i :: 0 <= i < |idle| ==> idle[i] < s.made && idle[i] !in s.poisoned) &&
    (forall i, j :: 0 <= i < j < |idle| ==> idle[i] != idle[j]) &&
    (forall t :: 0 <= t < |s.threads| && s.threads[t].Holding? ==>
      s.threads[t].connection < s.made && s.threads[t].connection !in idle) &&
    (forall t, u :: 0 <= t < u < |s.threads| && s.threads[t].Holding? && s.threads[u].Holding? ==>
      s.threads[t].connection != s.threads[u].connection) &&
    (forall c :: c in s.poisoned ==> c < s.made)
  }

  lemma NotifyKeeps(s: System, woken: nat)
    requires MayWake(s, woken) && Conserved(s)
    requires SomeoneSleeps(s) ==> Count(s.threads).waking + 1 >= Free(s.pool)
    ensures Conserved(NotifyOne(s, woken)) && Covered(NotifyOne(s, woken))
  {
    if SomeoneSleeps(s) {
      CountUpdate(s.threads, woken, Notified);
    }
  }

  /** Putting a thread that does not sleep elsewhere never creates a sleeper. */
  lemma PutSleeps(s: System, t: nat, thread: Thread)
    requires t < |s.threads|
    ensures !thread.Asleep? && SomeoneSleeps(Put(s, t, thread)) ==> SomeoneSleeps(s)
  {
    var threads := s.threads[t := thread];
    if !thread.Asleep? && Asleep in threads {
      var i :| 0 <= i < |threads| && threads[i] == Asleep;
      assert s.threads[i] == Asleep;
    }
  }

  /** A thread that leaves with a slot uses up one free slot; it may have been about to look. */
  lemma EnterKeeps(s: System, t: nat)
    requires t < |s.threads| && Ready(s.pool) && Conserved(s) && Covered(s)
    requires One(s.threads[t]).leased == One(s.threads[t]).creating == 0
    ensures Conserved(Enter(s, t)) && Covered(Enter(s, t))
  {
    hide Count;
    var thread := Enter(s, t).threads[t];
    CountUpdate(s.threads, t, thread);
    PutSleeps(s, t, thread);
  }

  /** A step that leaves the pool alone, by a thread that holds no slot before or after. */
  lemma PutKeeps(s: System, t: nat, thread: Thread)
    requires t < |s.threads| && Conserved(s) && Covered(s)
    requires One(thread).leased + One(thread).creating == One(s.threads[t]).leased + One(s.threads[t]).creating
    requires One(s.threads[t]).waking <= One(thread).waking || Free(s.pool) == 0
    requires thread.Asleep? ==> Free(s.pool) == 0
    ensures Conserved(Put(s, t, thread)) && Covered(Put(s, t, thread))
  {
    hide Count, One;
    CountUpdate(s.threads, t, thread);
    CountSigns(Put(s, t, thread).threads);
    PutSleeps(s, t, thread);
  }

  lemma CreationFailedKeeps(s: System, t: nat)
    requires t < |s.threads| && s.threads[t].Creating? && Conserved(s) && Covered(s)
    ensures
      var r := Put(s, t, OwesNotify).(pool := Unreserved(s.pool));
      Conserved(r) && Covered(r)
  {
    hide Count;
    CountUpdate(s.threads, t, OwesNotify);
    CountSigns(s.threads[t := OwesNotify]);
    PutSleeps(s, t, OwesNotify);
  }

  lemma AnnounceKeeps(s: System, t: nat, woken: nat)
    requires t < |s.threads| && s.threads[t].OwesNotify? && Conserved(s) && Covered(s)
    requires MayWake(s, woken)
    ensures MayWake(Put(s, t, Outside), woken)
    ensures
      var r := NotifyOne(Put(s, t, Outside), woken);
      Conserved(r) && Covered(r)
  {
    hide Count;
    CountUpdate(s.threads, t, Outside);
    PutSleeps(s, t, Outside);
    NotifyKeeps(Put(s, t, Outside), woken);
  }

  lemma GiveBackKeeps(s: System, t: nat, woken: nat)
    requires t < |s.threads| && s.threads[t].Holding? && Conserved(s) && Covered(s)
    requires MayWake(s, woken)
    ensures MayWake(Back(s, t), woken)
    ensures Conserved(NotifyOne(Back(s, t), woken)) && Covered(NotifyOne(Back(s, t), woken))
  {
    hide Count;
    CountUpdate(s.threads, t, Outside);
    CountSigns(s.threads[t := Outside]);
    PutSleeps(s, t, Outside);
    NotifyKeeps(Back(s, t), woken);
  }

  /** A pool that is not ready has no free slot. */
  lemma NotReady(s: System)
    requires Conserved(s) && !Ready(s.pool)
    ensures Free(s.pool) == 0
  {
  }

  lemma StepConserves(s: System, a: Action)
    requires Conserved(s) && Covered(s) && Enabled(s, a)
    ensures Conserved(Step(s, a)) && Covered(Step(s, a))
  {
    hide Conserved, Covered, NotifyOne, Back, Put, Enter, Ready, Unreserved, Returned, Free;
    var t := a.thread;
    if !Ready(s.pool) {
      NotReady(s);
    }
    match a
    case Announce(_, woken) => AnnounceKeeps(s, t, woken);
    case GiveBack(_, woken) => GiveBackKeeps(s, t, woken);
    case CreationFailed(_) => CreationFailedKeeps(s, t);
    case Break(_) => BreakKeeps(s, t);
    case Created(_) => CreatedKeeps(s, t);
    case Stir(_) => PutKeeps(s, t, Notified);
    case Expire(_) => PutKeeps(s, t, TimedOut);
    case Arrive(_) => LookKeeps(s, t, Asleep);
    case Recheck(_, expired) => LookKeeps(s, t, if expired then Outside else Asleep);
    case LastCheck(_) => LookKeeps(s, t, Outside);
  }

  lemma BreakKeeps(s: System, t: nat)
    requires t < |s.threads| && s.threads[t].Holding? && Conserved(s) && Covered(s)
    ensures
      var r := s.(poisoned := s.poisoned + {s.threads[t].connection});
      Conserved(r) && Covered(r)
  {
  }

  lemma CreatedKeeps(s: System, t: nat)
    requires t < |s.threads| && s.threads[t].Creating? && Conserved(s) && Covered(s)
    ensures
      var r := Put(s, t, Holding(s.made)).(made := s.made + 1);
      Conserved(r) && Covered(r)
  {
    PutKeeps(s, t, Holding(s.made));
  }

  lemma LookKeeps(s: System, t: nat, otherwise: Thread)
    requires t < |s.threads| && Conserved(s) && Covered(s)
    requires s.threads[t].Outside? || s.threads[t].Notified? || s.threads[t].TimedOut?
    requires otherwise.Outside? || otherwise.Asleep?
    ensures
      var r := if Ready(s.pool) then Enter(s, t) else Put(s, t, otherwise);
      Conserved(r) && Covered(r)
  {
    if Ready(s.pool) {
      EnterKeeps(s, t);
    } else {
      NotReady(s);
      PutKeeps(s, t, otherwise);
    }
  }

  lemma PutApart(s: System, t: nat, thread: Thread)
    requires t < |s.threads| && !thread.Holding? && Apart(s)
    ensures Apart(Put(s, t, thread))
  {
  }

  lemma NotifyApart(s: System, woken: nat)
    requires MayWake(s, woken) && Apart(s)
    ensures Apart(NotifyOne(s, woken))
  {
    hide Apart;
    if SomeoneSleeps(s) {
      PutApart(s, woken, Notified);
    }
  }

  lemma HoldApart(s: System, t: nat, c: nat)
    requires t < |s.threads| && Apart(s) && c < s.made && c !in s.pool.available
    requires forall u :: 0 <= u < |s.threads| && s.threads[u].Holding? ==> s.threads[u].connection != c
    ensures Apart(Put(s, t, Holding(c)))
  {
  }

  lemma EnterApart(s: System, t: nat)
    requires t < |s.threads| && Ready(s.pool) && Apart(s)
    ensures Apart(Enter(s, t))
  {
    var taken := Taken(s.pool);
    var s1 := s.(pool := taken.0);
    assert Apart(s1);
    if taken.1.Some? {
      HoldApart(s1, t, taken.1.value);
    } else {
      PutApart(s1, t, Creating);
    }
  }

  lemma ReturnApart(s: System, t: nat)
    requires t < |s.threads| && s.threads[t].Holding? && Apart(s)
    ensures Apart(Back(s, t))
  {
  }

  lemma PutMayWake(s: System, t: nat, woken: nat)
    requires t < |s.threads| && s.threads[t].OwesNotify? && MayWake(s, woken)
    ensures MayWake(Put(s, t, Outside), woken)
  {
    PutSleeps(s, t, Outside);
  }

  lemma GiveBackMayWake(s: System, t: nat, woken: nat)
    requires t < |s.threads| && s.threads[t].Holding? && MayWake(s, woken)
    ensures MayWake(Back(s, t), woken)
  {
    PutSleeps(s, t, Outside);
  }

  lemma {:induction false} StepApart(s: System, a: Action)
    requires Apart(s) && Enabled(s, a)
    ensures Apart(Step(s, a))
  {
    hide Apart, NotifyOne, Back, Put, Enter, Ready, Unreserved, Returned, Conserved, Covered;
    var t := a.thread;
    match a
    case Announce(_, woken) =>
      PutMayWake(s, t, woken);
      PutApart(s, t, Outside);
      NotifyApart(Put(s, t, Outside), woken);
    case GiveBack(_, woken) =>
      GiveBackMayWake(s, t, woken);
      ReturnApart(s, t);
      NotifyApart(Back(s, t), woken);
    case CreationFailed(_) => UnreserveApart(s, t);
    case Break(_) => BreakApart(s, t);
    case Created(_) => CreatedApart(s, t);
    case _ =>
      if Ready(s.pool) && (a.Arrive? || a.Recheck? || a.LastCheck?) {
        EnterApart(s, t);
      } else {
        PutApart(s, t, Outside);
        PutApart(s, t, Asleep);
        PutApart(s, t, Notified);
        PutApart(s, t, TimedOut);
      }
  }

  lemma UnreserveApart(s: System, t: nat)
    requires t < |s.threads| && Apart(s)
    ensures Apart(Put(s, t, OwesNotify).(pool := Unreserved(s.pool)))
  {
    PutApart(s, t, OwesNotify);
  }

  lemma BreakApart(s: System, t: nat)
    requires t < |s.threads| && s.threads[t].Holding? && Apart(s)
    ensures Apart(s.(poisoned := s.poisoned + {s.threads[t].connection}))
  {
  }

  lemma CreatedApart(s: System, t: nat)
    requires t < |s.threads| && Apart(s)
    ensures Apart(Put(s, t, Holding(s.made)).(made := s.made + 1))
  {
    HoldApart(s.(made := s.made + 1), t, s.made);
  }

  lemma {:induction false} StartSafe(capacity: nat, threads: nat)
    ensures Conserved(Start(capacity, threads)) && Covered(Start(capacity, threads)) && Apart(Start(capacity, threads))
  {
    hide Count;
    CountIdle(threads);
  }

  /** In every interleaving slots are conserved, no wakeup is lost and no connection is shared. */
  lemma {:induction false} Always(s: System, actions: seq<Action>)
    requires Conserved(s) && Covered(s) && Apart(s) && Possible(s, actions)
    ensures
      var r := Run(s, actions);
      Conserved(r) && Covered(r) && Apart(r)
    decreases |actions|
  {
    hide Conserved, Covered, Apart, Step;
    if actions != [] {
      StepConserves(s, actions[0]);
      StepApart(s, actions[0]);
      Always(Step(s, actions[0]), actions[1..]);
    }
  }

  lemma EveryInterleaving(capacity: nat, threads: nat, actions: seq<Action>)
    requires Possible(Start(capacity, threads), actions)
    ensures
      var r := Run(Start(capacity, threads), actions);
      Conserved(r) && Covered(r) && Apart(r)
  {
    StartSafe(capacity, threads);
    Always(Start(capacity, threads), actions);
  }

  predicate HasSlot(s: System, t: nat) {
    t < |s.threads| && (s.threads[t].Holding? || s.threads[t].Creating?)
  }

  /**
   A thread that looks gets a slot exactly when there is one to get, and a new connection only if none
   is idle; otherwise it sleeps on, unless its time is up.
   */
  lemma LooksDecide(s: System, a: Action)
    requires Enabled(s, a) && (a.Arrive? || a.Recheck? || a.LastCheck?)
    ensures
      var r, t := Step(s, a), a.thread;
      (HasSlot(r, t) <==> Ready(s.pool)) && (r.threads[t].Holding? <==> s.pool.available != []) &&
      (!Ready(s.pool) ==>
        r.pool == s.pool &&
        r.threads[t] == if a.LastCheck? || (a.Recheck? && a.expired) then Outside else Asleep)
  {
  }

  /** A notified thread that looks while the pool is ready gets a slot. */
  lemma NotifiedEnters(s: System, t: nat)
    requires t < |s.threads| && s.threads[t].Notified? && Ready(s.pool)
    ensures Possible(s, [Recheck(t, false)]) && HasSlot(Run(s, [Recheck(t, false)]), t)
  {
    var s1 := Step(s, Recheck(t, false));
    assert Possible(s1, []) && Run(s1, []) == s1;
    assert [Recheck(t, false)][1..] == [];
  }

  lemma AnnouncedEnters(s: System, t: nat, sleeper: nat)
    requires t < |s.threads| && s.threads[t].OwesNotify? && Ready(s.pool)
    requires sleeper < |s.threads| && s.threads[sleeper].Asleep?
    ensures
      var next := [Announce(t, sleeper), Recheck(sleeper, false)];
      Possible(s, next) && HasSlot(Run(s, next), sleeper)
  {
    hide Taken;
    var next := [Announce(t, sleeper), Recheck(sleeper, false)];
    assert Put(s, t, Outside).threads[sleeper] == Asleep;
    var s1 := Step(s, next[0]);
    NotifiedEnters(s1, sleeper);
    assert next[1..] == [Recheck(sleeper, false)];
  }

  predicate IsWaiting(s: System, t: nat) {
    t < |s.threads| && (s.threads[t].Asleep? || s.threads[t].Notified?)
  }

  /** At most two looks and announcements by threads already in the pool give a waiting one a slot. */
  ghost predicate CanServe(s: System) {
    exists next: seq<Action>, winner: nat ::
      |next| <= 2 && (forall a :: a in next ==> a.Recheck? || a.Announce?) &&
      IsWaiting(s, winner) && Possible(s, next) && HasSlot(Run(s, next), winner)
  }

  lemma Served(s: System, next: seq<Action>, winner: nat)
    requires |next| <= 2 && forall a :: a in next ==> a.Recheck? || a.Announce?
    requires IsWaiting(s, winner) && Possible(s, next) && HasSlot(Run(s, next), winner)
    ensures CanServe(s)
  {
  }

  /**
   Whenever a thread sleeps although a slot is free, threads that are already awake bring one of
   the waiting threads to a slot in at most two steps: nobody has to arrive or give anything back.
   */
  lemma {:induction false} SleeperIsNeverStranded(capacity: nat, threads: nat, actions: seq<Action>)
    requires Possible(Start(capacity, threads), actions)
    requires SomeoneSleeps(Run(Start(capacity, threads), actions))
    requires Ready(Run(Start(capacity, threads), actions).pool)
    ensures CanServe(Run(Start(capacity, threads), actions))
  {
    EveryInterleaving(capacity, threads, actions);
    var s := Run(Start(capacity, threads), actions);
    hide CanServe, Possible, Run, HasSlot, Step, Start, Apart;
    CountSigns(s.threads);
    assert Count(s.threads).waking > 0;
    if Notified in s.threads {
      var winner :| 0 <= winner < |s.threads| && s.threads[winner] == Notified;
      NotifiedEnters(s, winner);
      Served(s, [Recheck(winner, false)], winner);
    } else {
      var t :| 0 <= t < |s.threads| && s.threads[t] == OwesNotify;
      var winner :| 0 <= winner < |s.threads| && s.threads[winner] == Asleep;
      AnnouncedEnters(s, t, winner);
      Served(s, [Announce(t, winner), Recheck(winner, false)], winner);
    }
  }
}
