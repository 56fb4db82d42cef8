/** LegacyWarehouseService (legacy_warehouse_service.cpp:81-251) over the unit of work. */
module WarehouseService {
  import opened Wrappers
  import opened Sql
  import opened Passwords
  import opened ConnectionPools
  import opened UnitsOfWork
  import opened Transactions
  import UseCases
  import Fields
  import GoodsId
  import Decimal

  type Principal = UseCases.Principal
  type GoodsView = UseCases.GoodsView

  /** The default shelf in UTF-8, one character for each byte. */
  const DEFAULT_LOCATION :=
    "\U{E9}\U{BB}\U{98}\U{E8}\U{AE}\U{A4}\U{E8}\U{B4}\U{A7}\U{E6}\U{9E}\U{B6}"

  predicate CanWrite(p: Principal) {
    p.role == "manager" || p.role == "admin"
  }

  /** Where goods are put. */
  function Shelf(location: string): string {
    if Fields.Blank(location) then DEFAULT_LOCATION else Fields.Normalized(location)
  }

  /** The row that was asked for is there under the next id, shown as it is, and nothing else has changed. */
  predicate Stored(view: GoodsView, before: Database, after: Database, row: Goods) {
    view == UseCases.GoodsView(before.nextGoods, row) &&
    after == before.(goods := before.goods[view.id := row], nextGoods := before.nextGoods + 1)
  }

  /** The row with the id was not taken, is now taken by the operator and shown so, and nothing else has changed. */
  predicate HandedOut(view: GoodsView, before: Database, after: Database, id: nat, operatorName: string) {
    view.id == id && id in before.goods && before.goods[id].status != "taken" &&
    view.goods == Goods(before.goods[id].name, before.goods[id].location, "taken", operatorName) &&
    after == before.(goods := before.goods[id := view.goods])
  }

  /** The pool once the connection it gave out has come back, or has been discarded. */
  function GivenBack(before: Pool<SqlExecutor>, e: SqlExecutor, session: Session): Pool<SqlExecutor>
    requires Ready(before)
  {
    Returned(Taken(before).0, e, !session.poisoned)
  }

  ghost function SessionOf(e: Option<SqlExecutor>): Option<Session>
    reads if e.Some? then {e.value} else {}
  {
    if e.Some? then Some(e.value.session) else None
  }

  lemma FailedBegin(s: Session)
    ensures !BeginOn(s).1 ==> BeginOn(s).0.poisoned
  {
  }

  lemma LoginLeavesFit(s: Session, username: string, password: string, h: Hasher)
    ensures Fit(s) ==>
      var r := UseCases.Login(s, username, password, h).0;
      r.poisoned || Fit(r)
  {
    if Fit(s) {
      UseCases.LoginIsAtomic(s, username, password, h);
    }
  }

  lemma CreateLeavesFit(s: Session, goods: Goods)
    ensures Fit(s) ==>
      var r := UseCases.Create(s, goods).0;
      r.poisoned || Fit(r)
  {
    if Fit(s) {
      UseCases.CreateIsAtomic(s, goods);
    }
  }

  lemma TakeLeavesFit(s: Session, id: nat, operatorName: string)
    ensures Fit(s) ==>
      var r := UseCases.Take(s, id, operatorName).0;
      r.poisoned || Fit(r)
  {
    if Fit(s) {
      UseCases.TakeIsAtomic(s, id, operatorName);
    }
  }

  /** The text is a numeral, with or without the mark, in the range of positive 64-bit integers. */
  predicate NamesId(supplied: string) {
    var text := GoodsId.WithoutMark(supplied);
    text != "" && Decimal.AllDigits(text) && 1 <= Decimal.Value(text) <= 0x7FFF_FFFF_FFFF_FFFF
  }

  /** The password of the user with that name is verified by the stored hash. */
  predicate Verified(users: seq<User>, username: string, password: string, h: Hasher) {
    UserNamed(users, username).Some? && h.verify(UserNamed(users, username).value.password, password)
  }

  /** Whoever is let in was verified, under the own name and role; whoever is called an impostor was not. */
  predicate LetIn(r: UseCases.Outcome<Principal>, users: seq<User>, username: string, password: string, h: Hasher) {
    match r
    case Done(principal) =>
      Verified(users, username, password, h) && principal.username == username &&
      exists u :: u in users && u.username == username && u.role == principal.role &&
        h.verify(u.password, password)
    case Rejected(InvalidCredentials) => !Verified(users, username, password, h)
    case _ => true
  }

  /** With a database that answers, a verified user is let in unless the upgrade of an aged hash fails. */
  predicate RightfullyIn(r: UseCases.Outcome<Principal>, users: seq<User>, username: string, password: string,
                         h: Hasher)
  {
    if !Verified(users, username, password, h) then r == UseCases.Rejected(UseCases.InvalidCredentials)
    else
      var user := UserNamed(users, username).value;
      r.Done? ||
      (r == UseCases.Rejected(UseCases.PasswordUpgradeFailed) && h.needsRehash(user.password) &&
       (h.hash(password, 0).None? || PasswordsChanged(users, user.id, h.hash(password, 0).value) != 1))
  }

  /** What the caller of login may rely on. */
  lemma LoginServed(s: Session, username: string, password: string, h: Hasher)
    ensures
      var answer := UseCases.Login(s, username, password, h).1;
      (Fit(s) ==> LetIn(answer, s.db.users, username, password, h)) &&
      (Fit(s) && Faultless(s) ==> RightfullyIn(answer, s.db.users, username, password, h))
  {
    hide Send, UseCases.Login, Faultless;
    if Fit(s) {
      UseCases.LoginIsAtomic(s, username, password, h);
      UseCases.NamedUser(s.db.users, username);
      if Faultless(s) {
        UseCases.LoginAnswer(s, username, password, h);
      }
    }
  }

  /** What the caller of createGoods may rely on. */
  lemma CreateServed(s: Session, row: Goods)
    ensures
      var r := UseCases.Create(s, row);
      (Fit(s) && r.1.Done? ==> Stored(r.1.value, s.db, r.0.db, row)) &&
      (Fit(s) && Faultless(s) ==> r.1.Done?) &&
      (r.1.Rejected? ==> r.1.failure == UseCases.CreateFailed)
  {
    CreateFailures(s, row);
    hide Send, UseCases.Create, Faultless;
    if Fit(s) {
      UseCases.CreateIsAtomic(s, row);
      if Faultless(s) {
        UseCases.CreateAnswer(s, row);
      }
    }
  }

  lemma CreateFailures(s: Session, row: Goods)
    ensures
      var answer := UseCases.Create(s, row).1;
      answer.Rejected? ==> answer.failure == UseCases.CreateFailed
  {
    hide Send, BeginOn, CommitOn, RollbackOn;
  }

  /** What the caller of takeGoods may rely on. */
  lemma TakeServed(s: Session, id: nat, operatorName: string)
    ensures
      var r := UseCases.Take(s, id, operatorName);
      (Fit(s) && r.1.Done? ==> HandedOut(r.1.value, s.db, r.0.db, id, operatorName)) &&
      (Fit(s) && Faultless(s) ==>
        r.1.Done? || r.1 == UseCases.Rejected(if id in s.db.goods then UseCases.GoodsAlreadyTaken
                                              else UseCases.GoodsNotFound)) &&
      (r.1.Rejected? ==>
        r.1.failure.TakeFailed? || r.1.failure.GoodsNotFound? || r.1.failure.GoodsAlreadyTaken?)
  {
    TakeFailures(s, id, operatorName);
    hide Send, UseCases.Take, Faultless;
    if Fit(s) {
      UseCases.TakeIsAtomic(s, id, operatorName);
      if Faultless(s) {
        UseCases.TakeAnswer(s, id, operatorName);
      }
    }
  }

  lemma TakeFailures(s: Session, id: nat, operatorName: string)
    ensures
      var answer := UseCases.Take(s, id, operatorName).1;
      answer.Rejected? ==>
        answer.failure.TakeFailed? || answer.failure.GoodsNotFound? || answer.failure.GoodsAlreadyTaken?
  {
    hide Send, BeginOn, CommitOn, RollbackOn;
  }

  class LegacyWarehouseService {
    const pool: ConnectionPool
    const passwords: Hasher
    var sessions: map<string, Principal>

    constructor (pool: ConnectionPool, passwords: Hasher)
      ensures this.pool == pool && this.passwords == passwords && sessions == map[]
    {
      this.pool, this.passwords := pool, passwords;
      sessions := map[];
    }

    function Find(token: string): Option<Principal>
      reads this
    {
      if token in sessions then Some(sessions[token]) else None
    }

    /** The token has a session of a manager or an administrator. */
    predicate MayWrite(token: string)
      reads this
    {
      token in sessions && (sessions[token].role == "manager" || sessions[token].role == "admin")
    }

    /** The unit of work of Login, from the lease to its end. */
    method ServeLogin(username: string, password: string, created: Option<SqlExecutor>)
        returns (r: UseCases.Outcome<Principal>)
      modifies pool, pool.Ward(created)
      ensures old(pool.Chosen(created)).None? ==>
        r == UseCases.Rejected(UseCases.ReadFailed) && pool.State() == old(pool.State())
      ensures old(pool.Chosen(created)).Some? ==>
        var e := old(pool.Chosen(created)).value;
        (e.session, r) == UseCases.Login(old(e.session), username, password, passwords) &&
        pool.State() == GivenBack(old(pool.State()), e, e.session)
      ensures old(pool.Sound(created)) ==> pool.Clean()
    {
      hide Send, BeginOn, CommitOn, RollbackOn, UseCases.LoggedIn, UseCases.Created, UseCases.TakenBy;
      ghost var session := SessionOf(pool.Chosen(created));
      var unit := Begin(pool, created);
      if session.Some? {
        FailedBegin(session.value);
        LoginLeavesFit(session.value, username, password, passwords);
      }
      if unit.None? {
        return UseCases.Rejected(UseCases.ReadFailed);
      }
      r := RunLogin(unit.value, username, password);
      unit.value.Destroy();
    }

    /** The unit of work of Create, from the lease to its end. */
    method ServeCreate(goods: Goods, created: Option<SqlExecutor>) returns (r: UseCases.Outcome<GoodsView>)
      modifies pool, pool.Ward(created)
      ensures old(pool.Chosen(created)).None? ==>
        r == UseCases.Rejected(UseCases.CreateFailed) && pool.State() == old(pool.State())
      ensures old(pool.Chosen(created)).Some? ==>
        var e := old(pool.Chosen(created)).value;
        (e.session, r) == UseCases.Create(old(e.session), goods) &&
        pool.State() == GivenBack(old(pool.State()), e, e.session)
      ensures old(pool.Sound(created)) ==> pool.Clean()
    {
      hide Send, BeginOn, CommitOn, RollbackOn, UseCases.LoggedIn, UseCases.Created, UseCases.TakenBy;
      ghost var session := SessionOf(pool.Chosen(created));
      var unit := Begin(pool, created);
      if session.Some? {
        FailedBegin(session.value);
        CreateLeavesFit(session.value, goods);
      }
      if unit.None? {
        return UseCases.Rejected(UseCases.CreateFailed);
      }
      r := RunCreate(unit.value, goods);
      unit.value.Destroy();
    }

    /** The unit of work of Take, from the lease to its end. */
    method ServeTake(id: nat, operatorName: string, created: Option<SqlExecutor>)
        returns (r: UseCases.Outcome<GoodsView>)
      modifies pool, pool.Ward(created)
      ensures old(pool.Chosen(created)).None? ==>
        r == UseCases.Rejected(UseCases.TakeFailed) && pool.State() == old(pool.State())
      ensures old(pool.Chosen(created)).Some? ==>
        var e := old(pool.Chosen(created)).value;
        (e.session, r) == UseCases.Take(old(e.session), id, operatorName) &&
        pool.State() == GivenBack(old(pool.State()), e, e.session)
      ensures old(pool.Sound(created)) ==> pool.Clean()
    {
      hide Send, BeginOn, CommitOn, RollbackOn, UseCases.LoggedIn, UseCases.Created, UseCases.TakenBy;
      ghost var session := SessionOf(pool.Chosen(created));
      var unit := Begin(pool, created);
      if session.Some? {
        FailedBegin(session.value);
        TakeLeavesFit(session.value, id, operatorName);
      }
      if unit.None? {
        return UseCases.Rejected(UseCases.TakeFailed);
      }
      r := RunTake(unit.value, id, operatorName);
      unit.value.Destroy();
    }

    /** `token` is what the random source would draw; `created` what the connection factory would give. */
    method Login(username: string, password: string, created: Option<SqlExecutor>, token: string)
        returns (r: UseCases.Outcome<Principal>)
      modifies this, pool, pool.Ward(created)
      ensures sessions == if r.Done? then old(sessions)[token := r.value] else old(sessions)
      ensures username == "" || password == "" ==>
        r == UseCases.Rejected(UseCases.InvalidLoginInput) && pool.State() == old(pool.State()) &&
        SessionOf(old(pool.Chosen(created))) == old(SessionOf(pool.Chosen(created)))
      ensures username != "" && password != "" && old(pool.Chosen(created)).None? ==>
        r == UseCases.Rejected(UseCases.ReadFailed) && pool.State() == old(pool.State())
      ensures username != "" && password != "" && old(pool.Chosen(created)).Some? ==>
        var e := old(pool.Chosen(created)).value;
        (e.session, r) == UseCases.Login(old(e.session), username, password, passwords) &&
        pool.State() == GivenBack(old(pool.State()), e, e.session) &&
        (old(Fit(e.session)) ==> LetIn(r, old(e.session.db.users), username, password, passwords)) &&
        (old(Fit(e.session) && Faultless(e.session)) ==>
          RightfullyIn(r, old(e.session.db.users), username, password, passwords))
      ensures old(pool.Sound(created)) ==> pool.Clean()
    {
      hide LetIn, RightfullyIn, Fit, Faultless, UseCases.Login, Returned;
      if username == "" || password == "" {
        return UseCases.Rejected(UseCases.InvalidLoginInput);
      }
      if pool.Chosen(created).Some? {
        LoginServed(pool.Chosen(created).value.session, username, password, passwords);
      }
      r := ServeLogin(username, password, created);
      if r.Done? {
        sessions := sessions[token := r.value];
      }
    }

    method CreateGoods(token: string, name: string, location: string, created: Option<SqlExecutor>)
        returns (r: UseCases.Outcome<GoodsView>)
      modifies pool, pool.Ward(created)
      ensures r == UseCases.Rejected(UseCases.Unauthenticated) <==> token !in sessions
      ensures r == UseCases.Rejected(UseCases.Forbidden) <==>
        token in sessions && sessions[token].role != "manager" && sessions[token].role != "admin"
      ensures r == UseCases.Rejected(UseCases.InvalidGoodsName) <==> MayWrite(token) && Fields.Blank(name)
      ensures !MayWrite(token) || Fields.Blank(name) ==>
        pool.State() == old(pool.State()) &&
        SessionOf(old(pool.Chosen(created))) == old(SessionOf(pool.Chosen(created)))
      ensures MayWrite(token) && !Fields.Blank(name) && old(pool.Chosen(created)).None? ==>
        r == UseCases.Rejected(UseCases.CreateFailed) && pool.State() == old(pool.State())
      ensures MayWrite(token) && !Fields.Blank(name) && old(pool.Chosen(created)).Some? ==>
        var e := old(pool.Chosen(created)).value;
        var row := Goods(Fields.Normalized(name), Shelf(location), "stored", sessions[token].username);
        (e.session, r) == UseCases.Create(old(e.session), row) &&
        pool.State() == GivenBack(old(pool.State()), e, e.session) &&
        (r.Done? && old(Fit(e.session)) ==> Stored(r.value, old(e.session.db), e.session.db, row)) &&
        (old(Fit(e.session) && Faultless(e.session)) ==> r.Done?)
      ensures old(pool.Sound(created)) ==> pool.Clean()
    {
      hide Send, Fields.Normalized, Fields.Blank, Returned, UseCases.Create, Fit, Faultless, Stored;
      Fields.BlankExactly(name);
      Fields.BlankExactly(location);
      var principal := Find(token);
      if principal.None? {
        return UseCases.Rejected(UseCases.Unauthenticated);
      }
      if !CanWrite(principal.value) {
        return UseCases.Rejected(UseCases.Forbidden);
      }
      var goodsName := Fields.Normalize(name);
      var goodsLocation := Fields.Normalize(location);
      if goodsName == "" {
        return UseCases.Rejected(UseCases.InvalidGoodsName);
      }
      if goodsLocation == "" {
        goodsLocation := DEFAULT_LOCATION;
      }
      var row := Goods(goodsName, goodsLocation, "stored", principal.value.username);
      if pool.Chosen(created).Some? {
        CreateServed(pool.Chosen(created).value.session, row);
      }
      r := ServeCreate(row, created);
    }

    method TakeGoods(token: string, suppliedId: string, created: Option<SqlExecutor>)
        returns (r: UseCases.Outcome<GoodsView>)
      modifies pool, pool.Ward(created)
      ensures r == UseCases.Rejected(UseCases.Unauthenticated) <==> token !in sessions
      ensures r == UseCases.Rejected(UseCases.Forbidden) <==>
        token in sessions && sessions[token].role != "manager" && sessions[token].role != "admin"
      ensures r == UseCases.Rejected(UseCases.InvalidGoodsId) <==> MayWrite(token) && !NamesId(suppliedId)
      ensures !MayWrite(token) || !NamesId(suppliedId) ==>
        pool.State() == old(pool.State()) &&
        SessionOf(old(pool.Chosen(created))) == old(SessionOf(pool.Chosen(created)))
      ensures MayWrite(token) && NamesId(suppliedId) && old(pool.Chosen(created)).None? ==>
        r == UseCases.Rejected(UseCases.TakeFailed) && pool.State() == old(pool.State())
      ensures MayWrite(token) && NamesId(suppliedId) && old(pool.Chosen(created)).Some? ==>
        var e := old(pool.Chosen(created)).value;
        var id, username := Decimal.Value(GoodsId.WithoutMark(suppliedId)), sessions[token].username;
        var before := old(e.session.db);
        (e.session, r) == UseCases.Take(old(e.session), id, username) &&
        pool.State() == GivenBack(old(pool.State()), e, e.session) &&
        (r.Done? && old(Fit(e.session)) ==> HandedOut(r.value, before, e.session.db, id, username)) &&
        (old(Fit(e.session) && Faultless(e.session)) ==>
          r.Done? || r == UseCases.Rejected(if id in before.goods then UseCases.GoodsAlreadyTaken
                                            else UseCases.GoodsNotFound))
      ensures old(pool.Sound(created)) ==> pool.Clean()
    {
      hide Send, Returned, UseCases.Take, Fit, Faultless, HandedOut, Decimal.Value;
      var principal := Find(token);
      if principal.None? {
        return UseCases.Rejected(UseCases.Unauthenticated);
      }
      if !CanWrite(principal.value) {
        return UseCases.Rejected(UseCases.Forbidden);
      }
      var goodsId := GoodsId.ParseGoodsId(suppliedId);
      if goodsId.None? {
        return UseCases.Rejected(UseCases.InvalidGoodsId);
      }
      if pool.Chosen(created).Some? {
        TakeServed(pool.Chosen(created).value.session, goodsId.value, principal.value.username);
      }
      r := ServeTake(goodsId.value, principal.value.username, created);
    }

    method RunCreate(u: UnitOfWork, goods: Goods) returns (r: UseCases.Outcome<GoodsView>)
      requires u.Valid() && u.transaction.active
      modifies u.transaction, u.lease.executor
      ensures u.Valid() && !u.transaction.active
      ensures (u.lease.executor.session, r) == UseCases.Created(old(u.lease.executor.session), goods)
    {
      var lastInsertId := View(u.lease.executor.session).nextGoods;
      var inserted := u.Execute(InsertGoods(goods));
      if !inserted {
        u.DoRollback();
        return UseCases.Rejected(UseCases.CreateFailed);
      }
      r := RunReadBack(u, lastInsertId, UseCases.CreateFailed);
    }

    method RunReadBack(u: UnitOfWork, id: nat, failure: UseCases.Failure)
        returns (r: UseCases.Outcome<GoodsView>)
      requires u.Valid() && u.transaction.active
      modifies u.transaction, u.lease.executor
      ensures u.Valid() && !u.transaction.active
      ensures (u.lease.executor.session, r) == UseCases.ReadBack(old(u.lease.executor.session), id, failure)
    {
      var found := u.Execute(FindGoods(id));
      var row := UseCases.GoodsAt(View(u.lease.executor.session), id);
      if !found || row.None? {
        u.DoRollback();
        return UseCases.Rejected(failure);
      }
      var committed := u.DoCommit();
      if !committed {
        return UseCases.Rejected(failure);
      }
      return UseCases.Done(row.value);
    }

    method RunTake(u: UnitOfWork, id: nat, operatorName: string) returns (r: UseCases.Outcome<GoodsView>)
      requires u.Valid() && u.transaction.active
      modifies u.transaction, u.lease.executor
      ensures u.Valid() && !u.transaction.active
      ensures (u.lease.executor.session, r) ==
        UseCases.TakenBy(old(u.lease.executor.session), id, operatorName)
    {
      var outcome := RunMarkTaken(u, id, operatorName);
      match outcome
      case Unknown =>
        u.DoRollback();
        return UseCases.Rejected(UseCases.TakeFailed);
      case NotFound =>
        u.DoRollback();
        return UseCases.Rejected(UseCases.GoodsNotFound);
      case AlreadyTaken =>
        u.DoRollback();
        return UseCases.Rejected(UseCases.GoodsAlreadyTaken);
      case Taken =>
        r := RunReadBack(u, id, UseCases.TakeFailed);
    }

    method RunMarkTaken(u: UnitOfWork, id: nat, operatorName: string) returns (outcome: UseCases.Taking)
      requires u.Valid()
      modifies u.lease.executor
      ensures (u.lease.executor.session, outcome) ==
        UseCases.MarkedTaken(old(u.lease.executor.session), id, operatorName)
    {
      var affected := Takeable(View(u.lease.executor.session), id);
      var updated := u.Execute(MarkTaken(id, operatorName));
      if !updated {
        return UseCases.Unknown;
      }
      if affected {
        return UseCases.Taken;
      }
      var status := u.Execute(LockGoods(id));
      if !status {
        return UseCases.Unknown;
      }
      if id !in View(u.lease.executor.session).goods {
        return UseCases.NotFound;
      }
      return UseCases.AlreadyTaken;
    }

    method RunLogin(u: UnitOfWork, username: string, password: string)
        returns (r: UseCases.Outcome<Principal>)
      requires u.Valid() && u.transaction.active
      modifies u.transaction, u.lease.executor
      ensures u.Valid() && !u.transaction.active
      ensures (u.lease.executor.session, r) ==
        UseCases.LoggedIn(old(u.lease.executor.session), username, password, passwords)
    {
      var e := u.lease.executor;
      var found := u.Execute(FindUser(username));
      if !found {
        u.DoRollback();
        return UseCases.Rejected(UseCases.ReadFailed);
      }
      var row := UserNamed(View(e.session).users, username);
      if row.None? || !passwords.verify(row.value.password, password) {
        u.DoRollback();
        return UseCases.Rejected(UseCases.InvalidCredentials);
      }
      var user := row.value;
      if passwords.needsRehash(user.password) {
        var hash := passwords.hash(password, 0);
        if hash.None? {
          u.DoRollback();
          return UseCases.Rejected(UseCases.PasswordUpgradeFailed);
        }
        var affected := PasswordsChanged(View(e.session).users, user.id, hash.value);
        var updated := u.Execute(SetPassword(user.id, hash.value));
        if !updated || affected != 1 {
          u.DoRollback();
          return UseCases.Rejected(UseCases.PasswordUpgradeFailed);
        }
      }
      var committed := u.DoCommit();
      if !committed {
        return UseCases.Rejected(UseCases.ReadFailed);
      }
      return UseCases.Done(UseCases.Principal(user.username, user.role));
    }
  }
}
