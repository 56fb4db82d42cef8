/**
 Any number of sessions taking and creating goods at once (legacy_warehouse_service.cpp:162-251
 over legacy_unit_of_work.cpp:169-220), under READ COMMITTED with row locks held to the end of the
 transaction. Each statement is one step; a statement that meets a foreign row lock waits.
 */
module ConcurrentTakes {
  import opened Sql
  import UseCases

  datatype Job = Take(id: nat, operatorName: string) | Create(name: string, location: string, creator: string)

  datatype Answer = Success(id: nat, view: Goods) | NotFound | AlreadyTaken | Failed

  /**
   `Missed` has updated no row; `Decided` has its answer and only has to roll back. `Lost` has
   lost its connection: the caller knows of a failure, while the server may still have the
   transaction open, and may yet commit it if COMMIT had been sent.
   */
  datatype Stage =
    | Fresh
    | Begun
    | Missed
    | Wrote(row: nat)
    | Seen(row: nat, view: Goods)
    | Decided(answer: Answer)
    | Lost(mayCommit: bool)
    | Ended(answer: Answer)

  datatype Caller = Caller(job: Job, stage: Stage, writes: map<nat, Goods>, locks: set<nat>)

  /** `winners` and `makers` remember whose take and whose insert of a row has been committed. */
  datatype Shop = Shop(
    rows: map<nat, Goods>,
    next: nat,
    callers: seq<Caller>,
    winners: map<nat, nat>,
    makers: map<nat, nat>)

  /** An insert may skip ids: the counter of the table never goes back. */
  datatype Action =
    | Arrive(job: Job)
    | Begin(caller: nat)
    | Update(caller: nat)
    | Lookup(caller: nat)
    | Insert(caller: nat, id: nat)
    | ReadBack(caller: nat)
    | Commit(caller: nat)
    | GiveUp(caller: nat)
    | Lose(caller: nat, mayCommit: bool)
    | Settle(caller: nat, applied: bool)

  predicate Blocked(s: Shop, t: nat, id: nat) {
    exists u :: 0 <= u < |s.callers| && u != t && id in s.callers[u].locks
  }

  predicate InTransaction(stage: Stage) {
    !stage.Fresh? && !stage.Lost? && !stage.Ended?
  }

  predicate Enabled(s: Shop, a: Action) {
    if a.Arrive? then true
    else
      a.caller < |s.callers| &&
      var c := s.callers[a.caller];
      match a
      case Begin(_) => c.stage.Fresh?
      case Update(t) => c.stage.Begun? && c.job.Take? && !Blocked(s, t, c.job.id)
      case Lookup(t) => c.stage.Missed? && c.job.Take? && !Blocked(s, t, c.job.id)
      case Insert(_, id) => c.stage.Begun? && c.job.Create? && s.next <= id
      case ReadBack(_) => c.stage.Wrote? && c.stage.row in c.writes
      case Commit(_) => c.stage.Seen?
      case GiveUp(_) => InTransaction(c.stage)
      case Lose(_, mayCommit) => InTransaction(c.stage) && (mayCommit ==> c.stage.Seen?)
      case Settle(_, applied) => c.stage.Lost? && (applied ==> c.stage.mayCommit)
  }

  function Put(s: Shop, t: nat, c: Caller): Shop
    requires t < |s.callers|
  {
    s.(callers := s.callers[t := c])
  }

  function TakenRow(goods: Goods, operatorName: string): Goods {
    goods.(status := "taken", operatorName := operatorName)
  }

  predicate IsTaken(s: Shop, id: nat) {
    id in s.rows && s.rows[id].status == "taken"
  }

  /** The transaction ends at the server: its locks are released, its writes applied or dropped. */
  function Close(s: Shop, t: nat, applied: bool, answer: Answer): Shop
    requires t < |s.callers|
  {
    var c := s.callers[t];
    var closed := Put(s, t, c.(stage := Ended(answer), writes := map[], locks := {}));
    if !applied then closed
    else
      closed.(
        rows := s.rows + c.writes,
        winners := if c.job.Take? && c.job.id in c.writes then s.winners[c.job.id := t] else s.winners,
        makers := if c.job.Create? then s.makers + map id | id in c.writes :: t else s.makers)
  }

  function Updated(s: Shop, t: nat): Shop
    requires t < |s.callers| && s.callers[t].job.Take?
  {
    var c := s.callers[t];
    var id := c.job.id;
    if id in s.rows && s.rows[id].status != "taken" then
      Put(s, t, c.(stage := Wrote(id), locks := {id},
        writes := map[id := TakenRow(s.rows[id], c.job.operatorName)]))
    else Put(s, t, c.(stage := Missed))
  }

  function LookedUp(s: Shop, t: nat): Shop
    requires t < |s.callers| && s.callers[t].job.Take?
  {
    var c := s.callers[t];
    if c.job.id in s.rows then Put(s, t, c.(stage := Decided(AlreadyTaken), locks := c.locks + {c.job.id}))
    else Put(s, t, c.(stage := Decided(NotFound)))
  }

  function Step(s: Shop, a: Action): Shop
    requires Enabled(s, a)
  {
    match a
    case Arrive(job) => s.(callers := s.callers + [Caller(job, Fresh, map[], {})])
    case Begin(t) => Put(s, t, s.callers[t].(stage := Begun))
    case Update(t) => Updated(s, t)
    case Lookup(t) => LookedUp(s, t)
    case Insert(t, id) =>
      var job := s.callers[t].job;
      var goods := Goods(job.name, job.location, "stored", job.creator);
      Put(s, t, s.callers[t].(stage := Wrote(id), locks := {id}, writes := map[id := goods])).(next := id + 1)
    case ReadBack(t) =>
      var c := s.callers[t];
      Put(s, t, c.(stage := Seen(c.stage.row, c.writes[c.stage.row])))
    case Commit(t) => Close(s, t, true, Success(s.callers[t].stage.row, s.callers[t].stage.view))
    case GiveUp(t) =>
      var stage := s.callers[t].stage;
      Close(s, t, false, if stage.Decided? then stage.answer else Answer.Failed)
    case Lose(t, mayCommit) => Put(s, t, s.callers[t].(stage := Lost(mayCommit)))
    case Settle(t, applied) => Close(s, t, applied, Answer.Failed)
  }

  predicate Possible(s: Shop, actions: seq<Action>)
    decreases |actions|
  {
    actions == [] || (Enabled(s, actions[0]) && Possible(Step(s, actions[0]), actions[1..]))
  }

  function Run(s: Shop, actions: seq<Action>): Shop
    requires Possible(s, actions)
    decreases |actions|
  {
    if actions == [] then s else Run(Step(s, actions[0]), actions[1..])
  }

  /** A table whose counter is beyond every row. */
  function Opened(rows: map<nat, Goods>, next: nat): Shop {
    Shop(rows, next, [], map[], map[])
  }

  // ---- What every interleaving keeps ----

  /** What a caller has written but not committed agrees with its job, its stage and the table. */
  predicate Honest(s: Shop, c: Caller) {
    c.writes.Keys <= c.locks && (forall id :: id in c.locks ==> id < s.next) &&
    (c.stage.Fresh? || c.stage.Begun? || c.stage.Missed? || c.stage.Decided? || c.stage.Ended? ==>
      c.writes == map[]) &&
    (c.stage.Fresh? || c.stage.Begun? || c.stage.Ended? ==> c.locks == {}) &&
    (c.stage.Wrote? || c.stage.Seen? ==> c.stage.row in c.writes) &&
    (c.stage.Seen? ==> c.stage.view == c.writes[c.stage.row]) &&
    (c.stage.Decided? ==> !c.stage.answer.Success?) &&
    forall id :: id in c.writes ==>
      id < s.next && (c.stage.Wrote? || c.stage.Seen? ==> c.stage.row == id) &&
      if c.job.Take? then
        id == c.job.id && id in s.rows && s.rows[id].status != "taken" &&
        c.writes[id] == TakenRow(s.rows[id], c.job.operatorName)
      else id !in s.rows && c.writes[id] == Goods(c.job.name, c.job.location, "stored", c.job.creator)
  }

  /** Name and place of goods never change. */
  predicate SameThing(a: Goods, b: Goods) {
    a.name == b.name && a.location == b.location
  }

  /**
   A taker that has been told of success is the winner of its row, and saw the row as it is. A creator
   that has been told of success has made the row that it was shown.
   */
  predicate Truthful(s: Shop, t: nat)
    requires t < |s.callers|
  {
    var c := s.callers[t];
    c.stage.Ended? && c.stage.answer.Success? ==>
      var id, view := c.stage.answer.id, c.stage.answer.view;
      id in s.rows &&
      if c.job.Take? then id == c.job.id && id in s.winners && s.winners[id] == t && s.rows[id] == view
      else
        id in s.makers && s.makers[id] == t && SameThing(s.rows[id], view) &&
        view == Goods(c.job.name, c.job.location, "stored", c.job.creator)
  }

  predicate WinnersTook(s: Shop) {
    forall id :: id in s.winners ==>
      IsTaken(s, id) && s.winners[id] < |s.callers| &&
      s.callers[s.winners[id]].job == Take(id, s.rows[id].operatorName)
  }

  predicate MakersMade(s: Shop) {
    forall id :: id in s.makers ==> id in s.rows
  }

  predicate LocksApart(s: Shop) {
    forall t, u :: 0 <= t < u < |s.callers| ==> s.callers[t].locks !! s.callers[u].locks
  }

  predicate Sound(s: Shop) {
    (forall id :: id in s.rows ==> id < s.next) && LocksApart(s) && WinnersTook(s) && MakersMade(s) &&
    (forall t :: 0 <= t < |s.callers| ==> Honest(s, s.callers[t])) &&
    (forall t :: 0 <= t < |s.callers| ==> Truthful(s, t))
  }

  /** A step that leaves rows and winners alone and moves one caller. */
  lemma CallerMoves(s: Shop, t: nat, c: Caller, next: nat)
    requires Sound(s) && t < |s.callers| && next >= s.next
    requires c.job == s.callers[t].job && Honest(s.(next := next), c)
    requires c.stage.Ended? ==> !c.stage.answer.Success?
    requires forall id :: id in c.locks - s.callers[t].locks ==> !Blocked(s, t, id)
    ensures Sound(Put(s, t, c).(next := next))
  {
    var r := Put(s, t, c).(next := next);
    forall u | 0 <= u < |r.callers|
      ensures Honest(r, r.callers[u]) && Truthful(r, u)
    {
      if u != t {
        assert Honest(s, s.callers[u]) && Truthful(s, u);
      }
    }
    forall u | 0 <= u < |s.callers| && u != t
      ensures c.locks !! s.callers[u].locks
    {
      forall id | id in c.locks
        ensures id !in s.callers[u].locks
      {
        if id !in s.callers[t].locks {
          assert !Blocked(s, t, id);
        }
      }
    }
  }

  /** Ending without a success, and without applying anything. */
  lemma DroppedKeeps(s: Shop, t: nat, answer: Answer)
    requires Sound(s) && t < |s.callers| && !answer.Success?
    ensures Sound(Close(s, t, false, answer))
  {
    hide Sound;
    CallerMoves(s, t, s.callers[t].(stage := Ended(answer), writes := map[], locks := {}), s.next) by {
      SoundParts(s, t);
    }
  }

  lemma SoundParts(s: Shop, t: nat)
    requires Sound(s) && t < |s.callers|
    ensures Honest(s, s.callers[t]) && Truthful(s, t)
  {
  }

  /** The writes of one transaction become the rows; every other transaction is unaffected. */
  lemma AppliedKeeps(s: Shop, t: nat, answer: Answer)
    requires Sound(s) && t < |s.callers|
    requires s.callers[t].stage.Seen? || s.callers[t].stage.Lost?
    requires answer.Success? ==>
      s.callers[t].stage.Seen? && answer == Success(s.callers[t].stage.row, s.callers[t].stage.view)
    ensures Sound(Close(s, t, true, answer))
  {
    var c := s.callers[t];
    var r := Close(s, t, true, answer);
    assert Honest(s, c);
    forall u | 0 <= u < |r.callers|
      ensures Honest(r, r.callers[u]) && Truthful(r, u)
    {
      StillHonest(s, t, u, answer);
      StillTruthful(s, t, u, answer);
    }
    WinnersStay(s, t, answer);
  }

  lemma StillHonest(s: Shop, t: nat, u: nat, answer: Answer)
    requires Sound(s) && t < |s.callers| && u < |s.callers|
    requires s.callers[t].stage.Seen? || s.callers[t].stage.Lost?
    ensures Honest(Close(s, t, true, answer), Close(s, t, true, answer).callers[u])
  {
    hide WinnersTook, Truthful;
    var c := s.callers[t];
    assert Honest(s, c) && Honest(s, s.callers[u]);
    if u != t {
      assert c.locks !! s.callers[u].locks;
      assert forall id :: id in c.writes ==> id !in s.callers[u].writes;
    }
  }

  /** A row that has been won is written by nobody. */
  lemma WonIsUnwritten(s: Shop, t: nat, id: nat)
    requires Sound(s) && t < |s.callers| && id in s.winners
    ensures id !in s.callers[t].writes
  {
    assert Honest(s, s.callers[t]);
    assert IsTaken(s, id);
  }

  lemma StillTruthful(s: Shop, t: nat, u: nat, answer: Answer)
    requires Sound(s) && t < |s.callers| && u < |s.callers|
    requires s.callers[t].stage.Seen? || s.callers[t].stage.Lost?
    requires answer.Success? ==>
      s.callers[t].stage.Seen? && answer == Success(s.callers[t].stage.row, s.callers[t].stage.view)
    ensures Truthful(Close(s, t, true, answer), u)
  {
    hide Sound, Close, Truthful, Honest;
    SoundParts(s, t);
    SoundParts(s, u);
    if u == t {
      OwnTruthful(s, t, answer);
    } else {
      if s.callers[u].job.Take? && s.callers[u].job.id in s.winners {
        WonIsUnwritten(s, t, s.callers[u].job.id);
      }
      OthersTruthful(s, t, u, answer);
    }
  }

  lemma OwnTruthful(s: Shop, t: nat, answer: Answer)
    requires t < |s.callers| && Honest(s, s.callers[t])
    requires answer.Success? ==>
      s.callers[t].stage.Seen? && answer == Success(s.callers[t].stage.row, s.callers[t].stage.view)
    ensures Truthful(Close(s, t, true, answer), t)
  {
  }

  lemma OthersTruthful(s: Shop, t: nat, u: nat, answer: Answer)
    requires t < |s.callers| && u < |s.callers| && u != t && Honest(s, s.callers[t]) && Truthful(s, u)
    requires
      var job := s.callers[u].job;
      job.Take? && job.id in s.winners ==> job.id !in s.callers[t].writes
    ensures Truthful(Close(s, t, true, answer), u)
  {
  }

  lemma WinnersStay(s: Shop, t: nat, answer: Answer)
    requires Sound(s) && t < |s.callers|
    requires s.callers[t].stage.Seen? || s.callers[t].stage.Lost?
    ensures WinnersTook(Close(s, t, true, answer))
  {
    var c := s.callers[t];
    assert Honest(s, c);
    var r := Close(s, t, true, answer);
    forall id | id in r.winners
      ensures IsTaken(r, id) && r.winners[id] < |r.callers| &&
        r.callers[r.winners[id]].job == Take(id, r.rows[id].operatorName)
    {
      if id in s.winners {
        assert IsTaken(s, id) && id !in c.writes;
      }
    }
  }

  lemma UpdatedKeeps(s: Shop, t: nat)
    requires Sound(s) && Enabled(s, Update(t))
    ensures Sound(Updated(s, t))
  {
    SoundParts(s, t);
    var c := s.callers[t];
    var id := c.job.id;
    if id in s.rows && s.rows[id].status != "taken" {
      var c1 := c.(stage := Wrote(id), locks := {id}, writes := map[id := TakenRow(s.rows[id], c.job.operatorName)]);
      assert Honest(s, c1);
      CallerMoves(s, t, c1, s.next);
    } else {
      CallerMoves(s, t, c.(stage := Missed), s.next);
    }
  }

  lemma LookedUpKeeps(s: Shop, t: nat)
    requires Sound(s) && Enabled(s, Lookup(t))
    ensures Sound(LookedUp(s, t))
  {
    SoundParts(s, t);
    var c := s.callers[t];
    if c.job.id in s.rows {
      CallerMoves(s, t, c.(stage := Decided(AlreadyTaken), locks := c.locks + {c.job.id}), s.next);
    } else {
      CallerMoves(s, t, c.(stage := Decided(NotFound)), s.next);
    }
  }

  /** An id that the counter has not reached is locked by nobody. */
  lemma FreshIdFree(s: Shop, t: nat, id: nat)
    requires Sound(s) && s.next <= id
    ensures !Blocked(s, t, id)
  {
    forall u | 0 <= u < |s.callers|
      ensures id !in s.callers[u].locks
    {
      SoundParts(s, u);
    }
  }

  lemma InsertKeeps(s: Shop, t: nat, id: nat)
    requires Sound(s) && Enabled(s, Insert(t, id))
    ensures Sound(Step(s, Insert(t, id)))
  {
    SoundParts(s, t);
    FreshIdFree(s, t, id);
    var job := s.callers[t].job;
    var goods := Goods(job.name, job.location, "stored", job.creator);
    var c := s.callers[t].(stage := Wrote(id), locks := {id}, writes := map[id := goods]);
    assert id !in s.rows;
    hide Sound, Blocked;
    assert Honest(s.(next := id + 1), c);
    CallerMoves(s, t, c, id + 1);
  }

  lemma {:induction false} StepKeeps(s: Shop, a: Action)
    requires Sound(s) && Enabled(s, a)
    ensures Sound(Step(s, a))
  {
    if a.Arrive? {
      ArriveKeeps(s, a.job);
    } else {
      hide Sound, Close, Updated, LookedUp, Blocked;
      var t := a.caller;
      var c := s.callers[t];
      SoundParts(s, t);
      match a
      case Begin(_) => CallerMoves(s, t, c.(stage := Begun), s.next);
      case Update(_) => UpdatedKeeps(s, t);
      case Lookup(_) => LookedUpKeeps(s, t);
      case Insert(_, id) => InsertKeeps(s, t, id);
      case ReadBack(_) => ReadBackKeeps(s, t);
      case Commit(_) => AppliedKeeps(s, t, Success(c.stage.row, c.stage.view));
      case GiveUp(_) => DroppedKeeps(s, t, if c.stage.Decided? then c.stage.answer else Answer.Failed);
      case Lose(_, mayCommit) => CallerMoves(s, t, c.(stage := Lost(mayCommit)), s.next);
      case Settle(_, applied) =>
        if applied {
          AppliedKeeps(s, t, Answer.Failed);
        } else {
          DroppedKeeps(s, t, Answer.Failed);
        }
    }
  }

  lemma ArriveKeeps(s: Shop, job: Job)
    requires Sound(s)
    ensures Sound(Step(s, Arrive(job)))
  {
    var r := Step(s, Arrive(job));
    forall u | 0 <= u < |r.callers|
      ensures Honest(r, r.callers[u]) && Truthful(r, u)
    {
      if u < |s.callers| {
        assert Honest(s, s.callers[u]) && Truthful(s, u);
      }
    }
  }

  lemma ReadBackKeeps(s: Shop, t: nat)
    requires Sound(s) && Enabled(s, ReadBack(t))
    ensures Sound(Step(s, ReadBack(t)))
  {
    SoundParts(s, t);
    var c := s.callers[t];
    var c1 := c.(stage := Seen(c.stage.row, c.writes[c.stage.row]));
    CallerMoves(s, t, c1, s.next);
  }

  lemma {:induction false} Always(s: Shop, actions: seq<Action>)
    requires Sound(s) && Possible(s, actions)
    ensures Sound(Run(s, actions))
    decreases |actions|
  {
    hide Sound, Step;
    if actions != [] {
      StepKeeps(s, actions[0]);
      Always(Step(s, actions[0]), actions[1..]);
    }
  }

  lemma OpenedSound(rows: map<nat, Goods>, next: nat)
    requires forall id :: id in rows ==> id < next
    ensures Sound(Opened(rows, next))
  {
  }

  /** At most one taker of a row is ever told of success. */
  lemma OneWinner(rows: map<nat, Goods>, next: nat, actions: seq<Action>, t: nat, u: nat)
    requires forall id :: id in rows ==> id < next
    requires Possible(Opened(rows, next), actions)
    requires
      var s := Run(Opened(rows, next), actions);
      t < |s.callers| && u < |s.callers| &&
      s.callers[t].job.Take? && s.callers[u].job.Take? && s.callers[t].job.id == s.callers[u].job.id &&
      s.callers[t].stage.Ended? && s.callers[t].stage.answer.Success? &&
      s.callers[u].stage.Ended? && s.callers[u].stage.answer.Success?
    ensures t == u
  {
    OpenedSound(rows, next);
    Always(Opened(rows, next), actions);
    var s := Run(Opened(rows, next), actions);
    hide Run, Possible;
    assert Truthful(s, t) && Truthful(s, u);
  }

  /**
   Every create that is told of success has a row of its own, which still has the name and the place
   that were asked for, and was shown to its creator as it was stored.
   */
  lemma EachCreateItsRow(rows: map<nat, Goods>, next: nat, actions: seq<Action>, t: nat, u: nat)
    requires forall id :: id in rows ==> id < next
    requires Possible(Opened(rows, next), actions)
    requires
      var s := Run(Opened(rows, next), actions);
      t < |s.callers| && u < |s.callers| && t != u &&
      s.callers[t].job.Create? && s.callers[t].stage.Ended? && s.callers[t].stage.answer.Success?
    ensures
      var s := Run(Opened(rows, next), actions);
      var job, made := s.callers[t].job, s.callers[t].stage.answer;
      made.id in s.rows && SameThing(s.rows[made.id], made.view) &&
      made.view == Goods(job.name, job.location, "stored", job.creator) &&
      (s.callers[u].job.Create? && s.callers[u].stage.Ended? && s.callers[u].stage.answer.Success? ==>
        s.callers[u].stage.answer.id != made.id)
  {
    OpenedSound(rows, next);
    Always(Opened(rows, next), actions);
    var s := Run(Opened(rows, next), actions);
    hide Run, Possible;
    assert Truthful(s, t) && Truthful(s, u);
  }

  /** The view of a successful take shows the row as it is, taken, with that caller as operator. */
  lemma ViewIsTrue(rows: map<nat, Goods>, next: nat, actions: seq<Action>, t: nat)
    requires forall id :: id in rows ==> id < next
    requires Possible(Opened(rows, next), actions)
    requires
      var s := Run(Opened(rows, next), actions);
      t < |s.callers| && s.callers[t].job.Take? &&
      s.callers[t].stage.Ended? && s.callers[t].stage.answer.Success?
    ensures
      var s := Run(Opened(rows, next), actions);
      var job, view := s.callers[t].job, s.callers[t].stage.answer.view;
      job.id in s.rows && s.rows[job.id] == view && view.status == "taken" && view.operatorName == job.operatorName
  {
    OpenedSound(rows, next);
    Always(Opened(rows, next), actions);
    var s := Run(Opened(rows, next), actions);
    hide Run, Possible;
    assert Truthful(s, t);
    assert IsTaken(s, s.callers[t].job.id);
  }

  /** No row disappears or changes its name or place, and a row that has been taken stays as it is. */
  predicate Kept(s: Shop, r: Shop) {
    forall id :: id in s.rows ==>
      id in r.rows && SameThing(r.rows[id], s.rows[id]) && (s.rows[id].status == "taken" ==> r.rows[id] == s.rows[id])
  }

  lemma CloseKept(s: Shop, t: nat, applied: bool, answer: Answer)
    requires Sound(s) && t < |s.callers|
    ensures Kept(s, Close(s, t, applied, answer))
  {
    SoundParts(s, t);
  }

  lemma StepKept(s: Shop, a: Action)
    requires Sound(s) && Enabled(s, a)
    ensures Kept(s, Step(s, a))
  {
    hide Sound, Close;
    if a.Commit? {
      var stage := s.callers[a.caller].stage;
      CloseKept(s, a.caller, true, Success(stage.row, stage.view));
    } else if a.Settle? {
      CloseKept(s, a.caller, a.applied, Answer.Failed);
    } else if a.GiveUp? {
      var stage := s.callers[a.caller].stage;
      CloseKept(s, a.caller, false, if stage.Decided? then stage.answer else Answer.Failed);
    }
  }

  lemma {:induction false} TakenIsAbsorbing(s: Shop, actions: seq<Action>)
    requires Sound(s) && Possible(s, actions)
    ensures Kept(s, Run(s, actions))
    decreases |actions|
  {
    hide Sound, Step;
    if actions != [] {
      StepKeeps(s, actions[0]);
      StepKept(s, actions[0]);
      TakenIsAbsorbing(Step(s, actions[0]), actions[1..]);
    }
  }

  // ---- How far the answer AlreadyTaken can be trusted ----

  /** The lookup of caller t would now answer AlreadyTaken. */
  predicate WouldAnswerTaken(s: Shop, t: nat) {
    Enabled(s, Lookup(t)) && LookedUp(s, t).callers[t].stage == Decided(AlreadyTaken)
  }

  /** However the others go on, the answer AlreadyTaken is only given while the row is taken. */
  ghost predicate Reliable(s: Shop, t: nat, id: nat) {
    forall actions :: Possible(s, actions) && WouldAnswerTaken(Run(s, actions), t) ==>
      IsTaken(Run(s, actions), id)
  }

  /** Nobody has written the row, and nobody can any more. */
  predicate Gone(s: Shop, id: nat) {
    id !in s.rows && id < s.next && forall u :: 0 <= u < |s.callers| ==> id !in s.callers[u].writes
  }

  lemma StepGone(s: Shop, a: Action, id: nat)
    requires Gone(s, id) && Enabled(s, a)
    ensures Gone(Step(s, a), id)
  {
  }

  lemma StepJob(s: Shop, a: Action, t: nat)
    requires t < |s.callers| && Enabled(s, a)
    ensures t < |Step(s, a).callers| && Step(s, a).callers[t].job == s.callers[t].job
  {
  }

  lemma {:induction false} StaysGone(s: Shop, actions: seq<Action>, t: nat, id: nat)
    requires Possible(s, actions) && t < |s.callers|
    ensures t < |Run(s, actions).callers| && Run(s, actions).callers[t].job == s.callers[t].job
    ensures Gone(s, id) ==> Gone(Run(s, actions), id)
    decreases |actions|
  {
    hide Step, Gone;
    if actions != [] {
      StepJob(s, actions[0], t);
      if Gone(s, id) {
        StepGone(s, actions[0], id);
      }
      StaysGone(Step(s, actions[0]), actions[1..], t, id);
    }
  }

  lemma NobodyWrites(s: Shop, t: nat, id: nat)
    requires Sound(s) && Enabled(s, Update(t)) && s.callers[t].job.id == id
    ensures forall u :: 0 <= u < |s.callers| ==> id !in s.callers[u].writes
  {
    forall u | 0 <= u < |s.callers|
      ensures id !in s.callers[u].writes
    {
      SoundParts(s, u);
      if u != t && id in s.callers[u].locks {
        assert Blocked(s, t, id);
      }
    }
  }

  lemma ReliableIf(s: Shop, t: nat, actions: seq<Action>)
    requires Sound(s) && Enabled(s, Update(t)) && Updated(s, t).callers[t].stage.Missed?
    requires Possible(Updated(s, t), actions) && WouldAnswerTaken(Run(Updated(s, t), actions), t)
    requires s.callers[t].job.id in s.rows || s.callers[t].job.id < s.next
    ensures IsTaken(Run(Updated(s, t), actions), s.callers[t].job.id)
  {
    var id := s.callers[t].job.id;
    var missed := Updated(s, t);
    StaysGone(missed, actions, t, id);
    if id in s.rows {
      UpdatedKeeps(s, t);
      TakenIsAbsorbing(missed, actions);
    } else {
      NobodyWrites(s, t, id);
      assert Gone(missed, id);
    }
  }

  /** What another caller may do meanwhile: create the very row, and commit. */
  function CreateMeanwhile(u: nat, id: nat): seq<Action> {
    [Arrive(Create("", "", "")), Begin(u), Insert(u, id), ReadBack(u), Action.Commit(u)]
  }

  lemma OneStep(s: Shop, actions: seq<Action>)
    requires actions != [] && Enabled(s, actions[0]) && Possible(Step(s, actions[0]), actions[1..])
    ensures Possible(s, actions) && Run(s, actions) == Run(Step(s, actions[0]), actions[1..])
  {
  }

  lemma TwoSteps(s: Shop, actions: seq<Action>)
    requires |actions| >= 2 && Enabled(s, actions[0]) && Enabled(Step(s, actions[0]), actions[1])
    requires Possible(Step(Step(s, actions[0]), actions[1]), actions[2..])
    ensures Possible(s, actions)
    ensures Run(s, actions) == Run(Step(Step(s, actions[0]), actions[1]), actions[2..])
  {
    hide Step, Enabled;
    assert actions[1..][1..] == actions[2..];
    OneStep(Step(s, actions[0]), actions[1..]);
    OneStep(s, actions);
  }

  lemma FiveSteps(s: Shop, s2: Shop, s4: Shop, s5: Shop, actions: seq<Action>)
    requires |actions| == 5
    requires Enabled(s, actions[0]) && Enabled(Step(s, actions[0]), actions[1])
    requires s2 == Step(Step(s, actions[0]), actions[1])
    requires Enabled(s2, actions[2]) && Enabled(Step(s2, actions[2]), actions[3])
    requires s4 == Step(Step(s2, actions[2]), actions[3])
    requires Enabled(s4, actions[4]) && s5 == Step(s4, actions[4])
    ensures Possible(s, actions) && Run(s, actions) == s5
  {
    hide Step, Enabled;
    assert Possible(s5, []) && Run(s5, []) == s5;
    assert actions[4..][1..] == [];
    OneStep(s4, actions[4..]);
    assert actions[2..][2..] == actions[4..];
    TwoSteps(s2, actions[2..]);
    TwoSteps(s, actions);
  }

  lemma Created(s: Shop, u: nat, id: nat)
    requires u == |s.callers| && s.next <= id
    ensures
      var actions := CreateMeanwhile(u, id);
      Possible(s, actions) &&
      var r := Run(s, actions);
      id in r.rows && r.rows[id].status == "stored" && |r.callers| == u + 1 && r.callers[..u] == s.callers &&
      r.callers[u].locks == {}
  {
    hide Blocked;
    var actions := CreateMeanwhile(u, id);
    var s1 := Step(s, actions[0]);
    var s2 := Step(s1, actions[1]);
    var s3 := Step(s2, actions[2]);
    var s4 := Step(s3, actions[3]);
    var s5 := Step(s4, actions[4]);
    assert s5.callers[..u] == s.callers;
    hide Step;
    FiveSteps(s, s2, s4, s5, actions);
  }

  lemma UnreliableIf(s: Shop, t: nat)
    requires Sound(s) && Enabled(s, Update(t)) && s.next <= s.callers[t].job.id
    requires Updated(s, t).callers[t].stage.Missed?
    ensures
      var missed, actions := Updated(s, t), CreateMeanwhile(|s.callers|, s.callers[t].job.id);
      Possible(missed, actions) && WouldAnswerTaken(Run(missed, actions), t) &&
      !IsTaken(Run(missed, actions), s.callers[t].job.id)
  {
    var id := s.callers[t].job.id;
    var missed, actions := Updated(s, t), CreateMeanwhile(|s.callers|, id);
    Created(missed, |s.callers|, id);
    hide Run, Possible;
    var r := Run(missed, actions);
    assert r.callers[..|s.callers|][t] == missed.callers[t];
    forall u | 0 <= u < |r.callers|
      ensures id !in r.callers[u].locks
    {
      if u < |s.callers| {
        SoundParts(s, u);
        assert r.callers[..|s.callers|][u] == missed.callers[u];
      }
    }
  }

  /**
   Exactly when AlreadyTaken can be trusted: if the row was there when the update found nothing to
   change, or can never appear any more. Otherwise a create may commit between the two statements
   of markTaken, and goods that were never taken are reported as taken.
   */
  lemma AlreadyTakenReliableExactly(s: Shop, t: nat)
    requires Sound(s) && Enabled(s, Update(t)) && Updated(s, t).callers[t].stage.Missed?
    ensures
      var id := s.callers[t].job.id;
      Reliable(Updated(s, t), t, id) <==> id in s.rows || id < s.next
  {
    hide Run, Possible, Sound;
    var id := s.callers[t].job.id;
    var missed := Updated(s, t);
    if id in s.rows || id < s.next {
      forall actions | Possible(missed, actions) && WouldAnswerTaken(Run(missed, actions), t)
        ensures IsTaken(Run(missed, actions), id)
      {
        ReliableIf(s, t, actions);
      }
    } else {
      UnreliableIf(s, t);
    }
  }

  // ---- Alone, a taker does what the single-session use case does ----

  function AloneTakes(id: nat, operatorName: string, takeable: bool): seq<Action> {
    [Arrive(Take(id, operatorName)), Begin(0), Update(0)] +
    if takeable then [ReadBack(0), Action.Commit(0)] else [Lookup(0), GiveUp(0)]
  }

  /** The same answer, in terms of the use case. */
  function AnswerOf(outcome: UseCases.Outcome<UseCases.GoodsView>): Answer {
    match outcome
    case Done(view) => Success(view.id, view.goods)
    case Rejected(GoodsNotFound) => NotFound
    case Rejected(GoodsAlreadyTaken) => AlreadyTaken
    case _ => Answer.Failed
  }

  lemma AloneSucceeds(rows: map<nat, Goods>, next: nat, id: nat, operatorName: string)
    requires id in rows && rows[id].status != "taken"
    ensures
      var actions := AloneTakes(id, operatorName, true);
      Possible(Opened(rows, next), actions) &&
      var r := Run(Opened(rows, next), actions);
      r.rows == rows[id := TakenRow(rows[id], operatorName)] && |r.callers| == 1 &&
      r.callers[0].stage == Ended(Success(id, TakenRow(rows[id], operatorName)))
  {
    var actions := AloneTakes(id, operatorName, true);
    var s := Opened(rows, next);
    var s1 := Step(s, actions[0]);
    var s2 := Step(s1, actions[1]);
    var s3 := Step(s2, actions[2]);
    var s4 := Step(s3, actions[3]);
    var s5 := Step(s4, actions[4]);
    assert s5.rows == rows + map[id := TakenRow(rows[id], operatorName)];
    hide Step;
    FiveSteps(s, s2, s4, s5, actions);
  }

  lemma AloneFails(rows: map<nat, Goods>, next: nat, id: nat, operatorName: string)
    requires id !in rows || rows[id].status == "taken"
    ensures
      var actions := AloneTakes(id, operatorName, false);
      Possible(Opened(rows, next), actions) &&
      var r := Run(Opened(rows, next), actions);
      r.rows == rows && |r.callers| == 1 &&
      r.callers[0].stage == Ended(if id in rows then AlreadyTaken else NotFound)
  {
    var actions := AloneTakes(id, operatorName, false);
    var s := Opened(rows, next);
    var s1 := Step(s, actions[0]);
    var s2 := Step(s1, actions[1]);
    var s3 := Step(s2, actions[2]);
    var s4 := Step(s3, actions[3]);
    var s5 := Step(s4, actions[4]);
    hide Step;
    FiveSteps(s, s2, s4, s5, actions);
  }

  /** A lone taker leaves the rows and gets the answer that takeGoods computes on one session. */
  lemma {:induction false} AloneIsTheUseCase(session: Session, id: nat, operatorName: string)
    requires Fit(session) && Faultless(session)
    ensures
      var actions := AloneTakes(id, operatorName, Takeable(session.db, id));
      var s := Opened(session.db.goods, session.db.nextGoods);
      var used := UseCases.Take(session, id, operatorName);
      Possible(s, actions) && Run(s, actions).rows == used.0.db.goods && |Run(s, actions).callers| == 1 &&
      Run(s, actions).callers[0].stage == Ended(AnswerOf(used.1))
  {
    hide Run, Possible, UseCases.Take, Faultless;
    if Takeable(session.db, id) {
      AloneSucceeds(session.db.goods, session.db.nextGoods, id, operatorName);
    } else {
      AloneFails(session.db.goods, session.db.nextGoods, id, operatorName);
    }
    UseCases.TakeIsAtomic(session, id, operatorName);
    UseCases.TakeAnswer(session, id, operatorName);
  }
}
