/**
 The abstract database behind the SqlExecutor interface (executor.hpp): committed rows, one
 open transaction per session, the named lock, and statements that may fail or be cut off.
 SQL text is replaced by the effect of the statement.
 */
module Sql {
  import opened Wrappers

  datatype Status = RUNNING | SUCCEEDED | FAILED

  datatype StepKey = StepKey(version: nat, id: string)

  datatype VersionRow = VersionRow(name: string, status: Status)

  datatype StepRow = StepRow(checksum: string, phase: string, execution: string, status: Status)

  datatype User = User(id: nat, username: string, password: string, role: string)

  datatype Goods = Goods(name: string, location: string, status: string, operatorName: string)

  /** `effects` counts how often the apply statement of a migration step has taken effect. */
  datatype Database = Database(
    versions: map<nat, VersionRow>,
    steps: map<StepKey, StepRow>,
    effects: multiset<StepKey>,
    users: seq<User>,
    goods: map<nat, Goods>,
    nextGoods: nat)

  const EMPTY_DATABASE := Database(map[], map[], multiset{}, [], map[], 1)

  datatype Statement =
    | GetLock
    | ReleaseLock
    | SetIsolation
    | Start
    | Commit
    | Rollback
    | Bootstrap(id: string)
    | VerifyBootstrap(id: string)
    | ReadVersion(version: nat)
    | ReadSteps(version: nat)
    | WriteVersion(version: nat, row: VersionRow)
    | WriteStep(key: StepKey, stepRow: StepRow)
    | Apply(key: StepKey)
    | Verify(key: StepKey, recovery: bool)
    | ReadUsers
    | FindUser(username: string)
    | SetPassword(userId: nat, hash: string)
    | CountAdministrators
    | AddAdministrator(username: string, hash: string)
    | FindGoods(goodsId: nat)
    | InsertGoods(goods: Goods)
    | MarkTaken(goodsId: nat, operatorName: string)
    | LockGoods(goodsId: nat)

  /**
   What happens to one statement. A failed statement may still have taken effect on the server
   (the reply was lost), and the failure may or may not be one that poisons the connection.
   A process that is cut off is a failure that is lost: no later statement is sent.
   */
  datatype Fate = Answered | Failed(effective: bool, lost: bool) | Refused

  datatype Event = Event(stmt: Statement, fate: Fate)

  /**
   What the session cannot control: whether another session holds the named lock, which
   bootstrap tables have an incompatible structure, and which Check steps find their target state.
   */
  datatype Environment = Environment(lockTaken: bool, incompatible: set<string>, checks: set<StepKey>)

  /**
   One server session. `txn` is the working copy of an open transaction; it is discarded unless
   it is committed. `fates` are the fates of the coming statements; once used up, every
   statement is answered. `log` lists the statements the client tried to send.
   */
  datatype Session = Session(
    db: Database,
    txn: Option<Database>,
    locked: bool,
    poisoned: bool,
    fates: seq<Fate>,
    env: Environment,
    log: seq<Event>)

  function Open(db: Database, fates: seq<Fate>, env: Environment): Session {
    Session(db, None, false, false, fates, env, [])
  }

  /** The rows this session reads. */
  function View(s: Session): Database {
    if s.txn.Some? then s.txn.value else s.db
  }

  function Written(s: Session, db: Database): Session {
    if s.txn.Some? then s.(txn := Some(db)) else s.(db := db)
  }

  function SetPasswordOf(users: seq<User>, id: nat, hash: string): (r: seq<User>)
    ensures |r| == |users|
  {
    seq(|users|, i requires 0 <= i < |users| =>
      if users[i].id == id then users[i].(password := hash) else users[i])
  }

  /** The row count that MySQL reports for SetPassword: rows that the statement changes. */
  function PasswordsChanged(users: seq<User>, id: nat, hash: string): nat {
    if users == [] then 0
    else
      (if users[0].id == id && users[0].password != hash then 1 else 0) +
      PasswordsChanged(users[1..], id, hash)
  }

  /** Likewise for MarkTaken. */
  predicate Takeable(db: Database, id: nat) {
    id in db.goods && db.goods[id].status != "taken"
  }

  function UserNamed(users: seq<User>, username: string): Option<User> {
    if users == [] then None
    else if users[0].username == username then Some(users[0])
    else UserNamed(users[1..], username)
  }

  function FreshUserId(users: seq<User>): (id: nat)
    ensures forall u :: u in users ==> u.id < id
  {
    if users == [] then 1
    else
      var rest := FreshUserId(users[1..]);
      if rest <= users[0].id then users[0].id + 1 else rest
  }

  /** The effect of a data statement on the rows. Migration records keep their first metadata. */
  function Perform(db: Database, stmt: Statement): Database {
    match stmt
    case WriteVersion(v, row) => db.(versions := db.versions[v := row])
    case WriteStep(key, row) =>
      db.(steps := db.steps[key := if key in db.steps then db.steps[key].(status := row.status) else row])
    case Apply(key) => db.(effects := db.effects[key := db.effects[key] + 1])
    case SetPassword(id, hash) => db.(users := SetPasswordOf(db.users, id, hash))
    case AddAdministrator(name, hash) =>
      db.(users := db.users + [User(FreshUserId(db.users), name, hash, "admin")])
    case InsertGoods(goods) =>
      db.(goods := db.goods[db.nextGoods := goods], nextGoods := db.nextGoods + 1)
    case MarkTaken(id, operatorName) =>
      if Takeable(db, id) then
        db.(goods := db.goods[id := db.goods[id].(status := "taken", operatorName := operatorName)])
      else db
    case _ => db
  }

  /** The counter of the table stands outside of transactions: an id once drawn is not drawn again. */
  function CounterKept(s: Session): Session {
    s.(db := s.db.(nextGoods := View(s).nextGoods))
  }

  /** The server side of a statement. START inside an open transaction commits it first. */
  function Effect(s: Session, stmt: Statement): Session {
    match stmt
    case GetLock => s.(locked := s.locked || !s.env.lockTaken)
    case ReleaseLock => s.(locked := false)
    case Start => s.(db := View(s), txn := Some(View(s)))
    case Commit => s.(db := View(s), txn := None)
    case Rollback => s.(txn := None)
    case InsertGoods(_) => CounterKept(Written(s, Perform(View(s), stmt)))
    case _ => Written(s, Perform(View(s), stmt))
  }

  function NextFate(s: Session): Fate {
    if s.poisoned then Refused
    else if s.fates == [] || s.fates[0].Refused? then Answered
    else s.fates[0]
  }

  /** Sends one statement. A poisoned connection refuses it. */
  function Send(s: Session, stmt: Statement): (r: (Session, bool))
    ensures r.1 ==> !s.poisoned && !r.0.poisoned
    ensures s.poisoned ==> !r.1 && r.0 == s.(log := r.0.log)
    ensures r.0.log == s.log + [Event(stmt, NextFate(s))]
  {
    var fate := NextFate(s);
    var s1 := s.(log := s.log + [Event(stmt, fate)],
                 fates := if s.poisoned || s.fates == [] then s.fates else s.fates[1..]);
    match fate
    case Refused => (s1, false)
    case Answered => (Effect(s1, stmt), true)
    case Failed(effective, lost) =>
      ((if effective then Effect(s1, stmt) else s1).(poisoned := lost), false)
  }

  function Poison(s: Session): Session {
    s.(poisoned := true)
  }

  /** Neither poisoned nor inside a transaction. */
  predicate Fit(s: Session) {
    !s.poisoned && s.txn.None?
  }

  /** Every statement of the session will be answered. */
  predicate Faultless(s: Session) {
    !s.poisoned && forall f :: f in s.fates ==> !f.Failed?
  }

  lemma AnsweredSend(s: Session, stmt: Statement)
    requires Faultless(s)
    ensures
      var r := Send(s, stmt);
      r.1 && Faultless(r.0) && r.0 == Effect(s, stmt).(fates := r.0.fates, log := r.0.log)
  {
    hide Perform;
  }

  /** What remains of the session's work once its connection is closed. */
  function Close(s: Session): Database {
    s.db
  }

  /** The executor interface: a connection with its session. */
  class SqlExecutor {
    var session: Session

    constructor (session: Session)
      ensures this.session == session
    {
      this.session := session;
    }

    method Execute(stmt: Statement) returns (ok: bool)
      modifies this
      ensures (session, ok) == Send(old(session), stmt)
    {
      var r := Send(session, stmt);
      session, ok := r.0, r.1;
    }

    predicate Reusable()
      reads this
    {
      !session.poisoned
    }

    method MarkPoisoned()
      modifies this
      ensures session == Poison(old(session))
    {
      session := Poison(session);
    }
  }
}
