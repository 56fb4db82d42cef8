/**
 The database side of login, createGoods and takeGoods (legacy_warehouse_service.cpp:88-251 over
 legacy_unit_of_work.cpp), as functions of the session they run on: what is sent, what is found,
 and how the unit of work ends.
 */
module UseCases {
  import opened Wrappers
  import opened Sql
  import opened Transactions
  import opened Passwords

  datatype Failure =
    | InvalidLoginInput
    | InvalidCredentials
    | PasswordUpgradeFailed
    | Unauthenticated
    | Forbidden
    | InvalidGoodsName
    | InvalidGoodsId
    | GoodsNotFound
    | GoodsAlreadyTaken
    | ReadFailed
    | CreateFailed
    | TakeFailed

  datatype Outcome<+T> = Done(value: T) | Rejected(failure: Failure)

  datatype Principal = Principal(username: string, role: string)

  datatype GoodsView = GoodsView(id: nat, goods: Goods)

  /** Ends the unit of work: by COMMIT, or with the failure when that outcome is unknown. */
  function Committed<T>(s: Session, value: T, failure: Failure): (Session, Outcome<T>) {
    var committed := CommitOn(s);
    (committed.0, if committed.1 then Done(value) else Rejected(failure))
  }

  function GivenUp<T>(s: Session, failure: Failure): (Session, Outcome<T>) {
    (RollbackOn(s), Rejected(failure))
  }

  function GoodsAt(db: Database, id: nat): Option<GoodsView> {
    if id in db.goods then Some(GoodsView(id, db.goods[id])) else None
  }

  /** The row just written is read back; the unit ends by COMMIT only if it was found. */
  function ReadBack(s: Session, id: nat, failure: Failure): (Session, Outcome<GoodsView>) {
    var found := Send(s, FindGoods(id));
    var row := GoodsAt(View(found.0), id);
    if !found.1 || row.None? then GivenUp(found.0, failure)
    else Committed(found.0, row.value, failure)
  }

  // ---- login ----

  function Login(s: Session, username: string, password: string, h: Hasher): (Session, Outcome<Principal>) {
    var begun := BeginOn(s);
    if !begun.1 then (begun.0, Rejected(ReadFailed)) else LoggedIn(begun.0, username, password, h)
  }

  function LoggedIn(s: Session, username: string, password: string, h: Hasher):
      (Session, Outcome<Principal>) {
    var found := Send(s, FindUser(username));
    if !found.1 then GivenUp(found.0, ReadFailed)
    else LoginAs(found.0, UserNamed(View(found.0).users, username), password, h)
  }

  function LoginAs(s: Session, user: Option<User>, password: string, h: Hasher):
      (Session, Outcome<Principal>) {
    if user.None? || !h.verify(user.value.password, password) then GivenUp(s, InvalidCredentials)
    else if !h.needsRehash(user.value.password) then
      Committed(s, Principal(user.value.username, user.value.role), ReadFailed)
    else Upgraded(s, user.value, h.hash(password, 0))
  }

  function Upgraded(s: Session, user: User, hash: Option<string>): (Session, Outcome<Principal>) {
    if hash.None? then GivenUp(s, PasswordUpgradeFailed)
    else
      var updated := Send(s, SetPassword(user.id, hash.value));
      if !updated.1 || PasswordsChanged(View(s).users, user.id, hash.value) != 1 then
        GivenUp(updated.0, PasswordUpgradeFailed)
      else Committed(updated.0, Principal(user.username, user.role), ReadFailed)
  }

  // ---- createGoods ----

  function Create(s: Session, goods: Goods): (Session, Outcome<GoodsView>) {
    var begun := BeginOn(s);
    if !begun.1 then (begun.0, Rejected(CreateFailed)) else Created(begun.0, goods)
  }

  function Created(s: Session, goods: Goods): (Session, Outcome<GoodsView>) {
    var inserted := Send(s, InsertGoods(goods));
    if !inserted.1 then GivenUp(inserted.0, CreateFailed)
    else ReadBack(inserted.0, View(s).nextGoods, CreateFailed)
  }

  // ---- takeGoods ----

  datatype Taking = Taken | NotFound | AlreadyTaken | Unknown

  /** MySqlLegacyGoods::markTaken. */
  function MarkedTaken(s: Session, id: nat, operatorName: string): (Session, Taking) {
    var updated := Send(s, MarkTaken(id, operatorName));
    if !updated.1 then (updated.0, Unknown)
    else if Takeable(View(s), id) then (updated.0, Taken)
    else
      var status := Send(updated.0, LockGoods(id));
      (status.0,
       if !status.1 then Unknown else if id !in View(status.0).goods then NotFound else AlreadyTaken)
  }

  function Take(s: Session, id: nat, operatorName: string): (Session, Outcome<GoodsView>) {
    var begun := BeginOn(s);
    if !begun.1 then (begun.0, Rejected(TakeFailed)) else TakenBy(begun.0, id, operatorName)
  }

  function TakenBy(s: Session, id: nat, operatorName: string): (Session, Outcome<GoodsView>) {
    var marked := MarkedTaken(s, id, operatorName);
    match marked.1
    case Unknown => GivenUp(marked.0, TakeFailed)
    case NotFound => GivenUp(marked.0, GoodsNotFound)
    case AlreadyTaken => GivenUp(marked.0, GoodsAlreadyTaken)
    case Taken => ReadBack(marked.0, id, TakeFailed)
  }

  // ---- What every use case promises ----

  predicate EndedByCommit(s: Session) {
    s.log != [] && s.log[|s.log| - 1].stmt.Commit?
  }

  /**
   The use case is atomic: done means that the whole effect is committed on a connection fit for
   reuse, a failure that COMMIT did not cause leaves the committed rows alone, and a failed COMMIT
   leaves all of the effect or none. Any connection it returns is fit for reuse or poisoned.
   */
  predicate Atomic(s: Session, r: Session, done: bool, effect: Database) {
    (done ==> r.db == effect && Fit(r) && EndedByCommit(r)) &&
    (!done ==> r.db == s.db || (EndedByCommit(r) && r.db == effect && r.poisoned)) &&
    (r.poisoned || Fit(r))
  }

  /** The session is inside the transaction of a unit of work that began on `db`. */
  predicate Inside(s: Session, db: Database) {
    s.db == db && (s.poisoned || s.txn.Some?)
  }

  lemma Begun(s: Session)
    requires Fit(s)
    ensures
      var r := BeginOn(s);
      r.0.db == s.db && (r.1 ==> Inside(r.0, s.db) && !r.0.poisoned && View(r.0) == s.db) &&
      (!r.1 ==> r.0.poisoned)
  {
  }

  predicate Harmless(stmt: Statement) {
    !stmt.Start? && !stmt.Commit? && !stmt.Rollback? && !stmt.InsertGoods?
  }

  lemma Sent(s: Session, db: Database, stmt: Statement)
    requires Inside(s, db) && Harmless(stmt)
    ensures
      var r := Send(s, stmt);
      Inside(r.0, db) && (r.1 ==> !s.poisoned && View(r.0) == Perform(View(s), stmt))
  {
  }

  lemma GaveUp<T>(s: Session, before: Session, failure: Failure, effect: Database)
    requires Inside(s, before.db)
    ensures
      var r: (Session, Outcome<T>) := GivenUp(s, failure);
      Atomic(before, r.0, r.1.Done?, effect) && r.1 == Rejected(failure)
  {
  }

  lemma EndedCommitting<T>(s: Session, before: Session, value: T, failure: Failure)
    requires Inside(s, before.db) && !s.poisoned
    ensures
      var r := Committed(s, value, failure);
      Atomic(before, r.0, r.1.Done?, View(s)) && r.1 == if r.1.Done? then Done(value) else Rejected(failure)
  {
  }

  lemma AnsweredLives(s: Session, stmt: Statement)
    ensures Send(s, stmt).1 ==> !Send(s, stmt).0.poisoned
  {
  }

  lemma {:induction false} ReadBackIsAtomic(s: Session, before: Session, id: nat, failure: Failure)
    requires Inside(s, before.db) && !s.poisoned
    ensures
      var r := ReadBack(s, id, failure);
      Atomic(before, r.0, r.1.Done?, View(s)) &&
      (r.1.Done? ==> id in View(s).goods && r.1.value == GoodsView(id, View(s).goods[id])) &&
      (r.1.Rejected? ==> r.1.failure == failure)
  {
    hide Send, CommitOn, RollbackOn, Atomic, Inside, GivenUp, Committed;
    var found := Send(s, FindGoods(id));
    var row := GoodsAt(View(found.0), id);
    Sent(s, before.db, FindGoods(id));
    FoundAfter(s, FindGoods(id));
    GaveUp<GoodsView>(found.0, before, failure, View(s));
    if found.1 && row.Some? {
      EndedCommitting(found.0, before, row.value, failure);
    }
  }

  /**
   Atomicity of takeGoods; a caller that succeeds sees the row with itself as operator, and one that
   is told of a missing or a taken row is told the truth, whatever else fails.
   */
  lemma {:induction false} TakeIsAtomic(s: Session, id: nat, operatorName: string)
    requires Fit(s)
    ensures
      var r := Take(s, id, operatorName);
      Atomic(s, r.0, r.1.Done?, Perform(s.db, MarkTaken(id, operatorName))) &&
      (r.1.Done? ==>
        Takeable(s.db, id) &&
        r.1.value == GoodsView(id, s.db.goods[id].(status := "taken", operatorName := operatorName)))
    ensures
      var answer := Take(s, id, operatorName).1;
      (answer == Rejected(GoodsNotFound) ==> id !in s.db.goods) &&
      (answer == Rejected(GoodsAlreadyTaken) ==> id in s.db.goods && s.db.goods[id].status == "taken") &&
      (answer.Rejected? ==>
        answer.failure.GoodsNotFound? || answer.failure.GoodsAlreadyTaken? || answer.failure.TakeFailed?)
  {
    hide Send, BeginOn, CommitOn, RollbackOn, Atomic, Inside, GivenUp, ReadBack, Fit;
    var effect := Perform(s.db, MarkTaken(id, operatorName));
    var begun := BeginOn(s);
    Begun(s);
    if !begun.1 {
      NotBegun(s, begun.0, TakeFailed, effect);
    } else {
      Sent(begun.0, s.db, MarkTaken(id, operatorName));
      var updated := Send(begun.0, MarkTaken(id, operatorName));
      if updated.1 && Takeable(View(begun.0), id) {
        AnsweredLives(begun.0, MarkTaken(id, operatorName));
        ReadBackIsAtomic(updated.0, s, id, TakeFailed);
      } else {
        Sent(updated.0, s.db, LockGoods(id));
        var marked := MarkedTaken(begun.0, id, operatorName).0;
        GaveUp<GoodsView>(marked, s, TakeFailed, effect);
        GaveUp<GoodsView>(marked, s, GoodsNotFound, effect);
        GaveUp<GoodsView>(marked, s, GoodsAlreadyTaken, effect);
      }
    }
  }

  lemma NotBegun(s: Session, r: Session, failure: Failure, effect: Database)
    requires r.db == s.db && r.poisoned
    ensures Atomic(s, r, Outcome<bool>.Rejected(failure).Done?, effect)
  {
  }

  /** An answered query leaves the rows alone and the connection alive. */
  lemma FoundAfter(s: Session, stmt: Statement)
    requires stmt.FindGoods? || stmt.LockGoods? || stmt.FindUser?
    ensures Send(s, stmt).1 ==> View(Send(s, stmt).0) == View(s) && !Send(s, stmt).0.poisoned
  {
  }

  /** The rows as they are, with one id more drawn. */
  function Drawn(db: Database): Database {
    db.(nextGoods := db.nextGoods + 1)
  }

  /** As `Atomic`, but for the counter: an id that was drawn stays drawn when its row is not kept. */
  predicate AtomicInsert(s: Session, r: Session, done: bool, effect: Database) {
    Atomic(s, r, done, effect) || Atomic(s.(db := Drawn(s.db)), r, done, effect)
  }

  lemma InsertSent(s: Session, goods: Goods)
    requires !s.poisoned && s.txn == Some(s.db)
    ensures
      var r := Send(s, InsertGoods(goods));
      (Inside(r.0, s.db) || Inside(r.0, Drawn(s.db))) &&
      (r.1 ==> Inside(r.0, Drawn(s.db)) && !r.0.poisoned && View(r.0) == Perform(s.db, InsertGoods(goods)))
  {
  }

  lemma BegunInside(s: Session)
    requires Fit(s) && BeginOn(s).1
    ensures !BeginOn(s).0.poisoned && BeginOn(s).0.txn == Some(s.db) && BeginOn(s).0.db == s.db
  {
  }

  /** Atomicity of createGoods; the caller sees the row it asked for, under a new id. */
  lemma {:induction false} CreateIsAtomic(s: Session, goods: Goods)
    requires Fit(s)
    ensures
      var r := Create(s, goods);
      AtomicInsert(s, r.0, r.1.Done?, Perform(s.db, InsertGoods(goods))) &&
      (r.1.Done? ==> r.1.value == GoodsView(s.db.nextGoods, goods)) &&
      (r.1.Rejected? ==> r.1.failure == CreateFailed)
  {
    hide Send, BeginOn, CommitOn, RollbackOn, Atomic, Inside, GivenUp, ReadBack, Fit;
    var effect := Perform(s.db, InsertGoods(goods));
    var drawn := s.(db := Drawn(s.db));
    var begun := BeginOn(s);
    Begun(s);
    if !begun.1 {
      NotBegun(s, begun.0, CreateFailed, effect);
    } else {
      BegunInside(s);
      InsertSent(begun.0, goods);
      var inserted := Send(begun.0, InsertGoods(goods));
      if inserted.1 {
        ReadBackIsAtomic(inserted.0, drawn, s.db.nextGoods, CreateFailed);
      } else if Inside(inserted.0, s.db) {
        GaveUp<GoodsView>(inserted.0, s, CreateFailed, effect);
      } else {
        GaveUp<GoodsView>(inserted.0, drawn, CreateFailed, effect);
      }
    }
  }

  /** The change that login makes: a hash that has aged is replaced, for a user who was verified. */
  function LoginEffect(db: Database, username: string, password: string, h: Hasher): Database {
    var user := UserNamed(db.users, username);
    if user.Some? && h.verify(user.value.password, password) && h.needsRehash(user.value.password) &&
       h.hash(password, 0).Some?
    then Perform(db, SetPassword(user.value.id, h.hash(password, 0).value))
    else db
  }

  /** Wrong credentials are blamed only if they are wrong, and an upgrade only if it was due. */
  predicate RefusalTrue(answer: Outcome<Principal>, user: Option<User>, password: string, h: Hasher) {
    var verified := user.Some? && h.verify(user.value.password, password);
    match answer
    case Rejected(InvalidCredentials) => !verified
    case Rejected(PasswordUpgradeFailed) => verified && h.needsRehash(user.value.password)
    case Rejected(failure) => failure == ReadFailed
    case Done(_) => verified
  }

  /**
   Atomicity of login; a principal is handed out only for a stored hash that was verified, and a
   refusal is true whatever else fails.
   */
  lemma {:induction false} LoginIsAtomic(s: Session, username: string, password: string, h: Hasher)
    requires Fit(s)
    ensures
      var r := Login(s, username, password, h);
      Atomic(s, r.0, r.1.Done?, LoginEffect(s.db, username, password, h)) &&
      (r.1.Done? ==>
        var user := UserNamed(s.db.users, username);
        user.Some? && h.verify(user.value.password, password) &&
        r.1.value == Principal(user.value.username, user.value.role))
    ensures RefusalTrue(Login(s, username, password, h).1, UserNamed(s.db.users, username), password, h)
  {
    hide Send, BeginOn, CommitOn, RollbackOn, Atomic, Inside, GivenUp, Committed, Fit, UserNamed, LoginAs, LoginEffect;
    var effect := LoginEffect(s.db, username, password, h);
    var begun := BeginOn(s);
    Begun(s);
    if !begun.1 {
      NotBegun(s, begun.0, ReadFailed, effect);
    } else {
      Sent(begun.0, s.db, FindUser(username));
      FoundAfter(begun.0, FindUser(username));
      var found := Send(begun.0, FindUser(username));
      GaveUp<Principal>(found.0, s, ReadFailed, effect);
      if found.1 {
        LoginAsIsAtomic(found.0, s, username, password, h);
      }
    }
  }

  lemma LoginAsIsAtomic(s: Session, before: Session, username: string, password: string, h: Hasher)
    requires Inside(s, before.db) && !s.poisoned && View(s) == before.db
    ensures
      var user := UserNamed(before.db.users, username);
      var r := LoginAs(s, user, password, h);
      Atomic(before, r.0, r.1.Done?, LoginEffect(before.db, username, password, h)) &&
      (r.1.Done? ==>
        user.Some? && h.verify(user.value.password, password) &&
        r.1.value == Principal(user.value.username, user.value.role))
    ensures
      var user := UserNamed(before.db.users, username);
      RefusalTrue(LoginAs(s, user, password, h).1, user, password, h)
  {
    hide Send, CommitOn, RollbackOn, Atomic, Inside, GivenUp, Committed, UserNamed, PasswordsChanged;
    var user := UserNamed(before.db.users, username);
    var effect := LoginEffect(before.db, username, password, h);
    GaveUp<Principal>(s, before, InvalidCredentials, effect);
    GaveUp<Principal>(s, before, PasswordUpgradeFailed, effect);
    if user.Some? && h.verify(user.value.password, password) {
      var principal := Principal(user.value.username, user.value.role);
      if !h.needsRehash(user.value.password) {
        EndedCommitting(s, before, principal, ReadFailed);
      } else if h.hash(password, 0).Some? {
        var stmt := SetPassword(user.value.id, h.hash(password, 0).value);
        Sent(s, before.db, stmt);
        var updated := Send(s, stmt);
        GaveUp<Principal>(updated.0, before, PasswordUpgradeFailed, effect);
        if updated.1 {
          EndedCommitting(updated.0, before, principal, ReadFailed);
        }
      }
    }
  }

  // ---- The answers while the database answers ----

  /** Without faults, taking goods fails exactly when the row is missing or taken, and says which. */
  lemma {:induction false} TakeAnswer(s: Session, id: nat, operatorName: string)
    requires Fit(s) && Faultless(s)
    ensures
      var answer := Take(s, id, operatorName).1;
      (answer.Done? <==> Takeable(s.db, id)) &&
      (answer == Rejected(GoodsNotFound) <==> id !in s.db.goods) &&
      (answer == Rejected(GoodsAlreadyTaken) <==> id in s.db.goods && s.db.goods[id].status == "taken")
  {
    hide Faultless, Send, RollbackOn;
    var begun := BeginOn(s).0;
    AnsweredSend(s, SetIsolation);
    AnsweredSend(Send(s, SetIsolation).0, Start);
    Begun(s);
    AnsweredSend(begun, MarkTaken(id, operatorName));
    Sent(begun, s.db, MarkTaken(id, operatorName));
    var updated := Send(begun, MarkTaken(id, operatorName)).0;
    AnsweredSend(updated, LockGoods(id));
    FoundAfter(updated, LockGoods(id));
    AnsweredSend(updated, FindGoods(id));
    FoundAfter(updated, FindGoods(id));
    AnsweredSend(Send(updated, FindGoods(id)).0, Commit);
  }

  lemma AnsweredCommitted<T>(s: Session, value: T, failure: Failure)
    requires Faultless(s)
    ensures Committed(s, value, failure).1 == Done(value)
  {
    hide Send, Faultless;
    AnsweredSend(s, Commit);
  }

  /** Without faults, creating goods never fails. */
  lemma {:induction false} CreateAnswer(s: Session, goods: Goods)
    requires Fit(s) && Faultless(s)
    ensures Create(s, goods).1.Done?
  {
    hide Faultless, Send, CommitOn, BeginOn;
    var begun := BeginOn(s).0;
    AnsweredBegin(s);
    AnsweredSend(begun, InsertGoods(goods));
    BegunInside(s);
    InsertSent(begun, goods);
    var inserted := Send(begun, InsertGoods(goods)).0;
    AnsweredSend(inserted, FindGoods(s.db.nextGoods));
    FoundAfter(inserted, FindGoods(s.db.nextGoods));
    AnsweredCommitted(Send(inserted, FindGoods(s.db.nextGoods)).0, GoodsView(s.db.nextGoods, goods), CreateFailed);
  }

  /** What the table holds under a name. */
  lemma {:induction false} NamedUser(users: seq<User>, username: string)
    ensures
      match UserNamed(users, username)
      case Some(user) => user in users && user.username == username
      case None => forall u :: u in users ==> u.username != username
  {
    if users != [] {
      NamedUser(users[1..], username);
      assert forall u :: u in users <==> u == users[0] || u in users[1..];
    }
  }

  /**
   Without faults, login refuses exactly an unknown name or a password that the stored hash does
   not verify. Whoever passes that is let in, unless the hash has aged and either no new one can
   be made or the update does not change exactly one row; and nothing else is ever answered.
   */
  lemma {:induction false} LoginAnswer(s: Session, username: string, password: string, h: Hasher)
    requires Fit(s) && Faultless(s)
    ensures
      var answer, user := Login(s, username, password, h).1, UserNamed(s.db.users, username);
      var verified := user.Some? && h.verify(user.value.password, password);
      (answer == Rejected(InvalidCredentials) <==> !verified) &&
      (answer.Done? <==>
        verified &&
        (h.needsRehash(user.value.password) ==>
          h.hash(password, 0).Some? &&
          PasswordsChanged(s.db.users, user.value.id, h.hash(password, 0).value) == 1)) &&
      (answer.Done? || answer == Rejected(InvalidCredentials) || answer == Rejected(PasswordUpgradeFailed))
  {
    hide Faultless, Send, BeginOn, RollbackOn, Committed, UserNamed, PasswordsChanged;
    var begun := BeginOn(s).0;
    AnsweredBegin(s);
    Begun(s);
    AnsweredSend(begun, FindUser(username));
    FoundAfter(begun, FindUser(username));
    var found := Send(begun, FindUser(username)).0;
    var user := UserNamed(s.db.users, username);
    if user.Some? {
      var principal := Principal(user.value.username, user.value.role);
      AnsweredCommitted(found, principal, ReadFailed);
      if h.hash(password, 0).Some? {
        var stmt := SetPassword(user.value.id, h.hash(password, 0).value);
        AnsweredSend(found, stmt);
        AnsweredCommitted(Send(found, stmt).0, principal, ReadFailed);
      }
    }
  }
}
