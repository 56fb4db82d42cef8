/**
 The statements that login, createGoods and takeGoods send to a database that answers, in
 their order (legacy_warehouse_service.cpp:88-251 over legacy_unit_of_work.cpp:169-220).
 */
module Conversations {
  import opened Wrappers
  import opened Sql
  import opened Transactions
  import opened Passwords
  import opened UseCases

  /** From s to t exactly these statements were sent, and each was answered. */
  predicate Exchanged(s: Session, t: Session, stmts: seq<Statement>) {
    |t.log| == |s.log| + |stmts| && s.log <= t.log &&
    forall k :: 0 <= k < |stmts| ==> t.log[|s.log| + k] == Event(stmts[k], Answered)
  }

  lemma OneMore(s: Session, t: Session, stmts: seq<Statement>, stmt: Statement)
    requires Exchanged(s, t, stmts) && Faultless(t)
    ensures Exchanged(s, Send(t, stmt).0, stmts + [stmt])
    ensures Send(t, stmt).1 && Faultless(Send(t, stmt).0)
  {
    AnsweredSend(t, stmt);
    NotFailed(t);
    hide Send, Faultless;
    SendLogs(t, stmt);
  }

  lemma NotFailed(s: Session)
    requires Faultless(s)
    ensures NextFate(s) == Answered
  {
    if s.fates != [] {
      assert s.fates[0] in s.fates;
    }
  }

  lemma SendLogs(s: Session, stmt: Statement)
    ensures Send(s, stmt).0.log == s.log + [Event(stmt, NextFate(s))]
  {
  }

  lemma Begins(s: Session)
    requires Fit(s) && Faultless(s)
    ensures
      var r := BeginOn(s);
      r.1 && Faultless(r.0) && Exchanged(s, r.0, [SetIsolation, Start]) && r.0.txn == Some(s.db) && r.0.db == s.db
  {
    hide Send, Faultless;
    AnsweredBegin(s);
    assert Exchanged(s, s, []);
    OneMore(s, s, [], SetIsolation);
    assert [] + [SetIsolation] == [SetIsolation] && [SetIsolation] + [Start] == [SetIsolation, Start];
    OneMore(s, Send(s, SetIsolation).0, [SetIsolation], Start);
  }

  lemma Ends(s: Session, t: Session, stmts: seq<Statement>)
    requires Exchanged(s, t, stmts) && Faultless(t)
    ensures Exchanged(s, CommitOn(t).0, stmts + [Commit]) && CommitOn(t).1
    ensures Exchanged(s, RollbackOn(t), stmts + [Rollback])
  {
    hide Send, Faultless, Exchanged;
    OneMore(s, t, stmts, Commit);
    OneMore(s, t, stmts, Rollback);
  }

  /** The update comes first; the second statement is asked only if it changed nothing. */
  lemma {:induction false} TakeSends(s: Session, id: nat, operatorName: string)
    requires Fit(s) && Faultless(s)
    ensures
      Exchanged(s, Take(s, id, operatorName).0,
        [SetIsolation, Start, MarkTaken(id, operatorName)] +
        if Takeable(s.db, id) then [FindGoods(id), Commit] else [LockGoods(id), Rollback])
  {
    hide Send, Faultless, Exchanged, BeginOn, CommitOn, RollbackOn;
    Begins(s);
    var begun := BeginOn(s).0;
    var stmts := [SetIsolation, Start];
    OneMore(s, begun, stmts, MarkTaken(id, operatorName));
    var updated := Send(begun, MarkTaken(id, operatorName)).0;
    var taking := stmts + [MarkTaken(id, operatorName)];
    assert taking == [SetIsolation, Start, MarkTaken(id, operatorName)];
    if Takeable(s.db, id) {
      Sent(begun, s.db, MarkTaken(id, operatorName));
      OneMore(s, updated, taking, FindGoods(id));
      FoundAfter(updated, FindGoods(id));
      Ends(s, Send(updated, FindGoods(id)).0, taking + [FindGoods(id)]);
      assert taking + [FindGoods(id)] + [Commit] == taking + [FindGoods(id), Commit];
    } else {
      OneMore(s, updated, taking, LockGoods(id));
      Ends(s, Send(updated, LockGoods(id)).0, taking + [LockGoods(id)]);
      assert taking + [LockGoods(id)] + [Rollback] == taking + [LockGoods(id), Rollback];
    }
  }

  /** The new row is read back by the id that the insert drew, before it is committed. */
  lemma {:induction false} CreateSends(s: Session, goods: Goods)
    requires Fit(s) && Faultless(s)
    ensures
      Exchanged(s, Create(s, goods).0, [SetIsolation, Start, InsertGoods(goods), FindGoods(s.db.nextGoods), Commit])
  {
    hide Send, Faultless, Exchanged, BeginOn, CommitOn, RollbackOn;
    Begins(s);
    var begun := BeginOn(s).0;
    var stmts, id := [SetIsolation, Start], s.db.nextGoods;
    OneMore(s, begun, stmts, InsertGoods(goods));
    BegunInside(s);
    InsertSent(begun, goods);
    var inserted := Send(begun, InsertGoods(goods)).0;
    OneMore(s, inserted, stmts + [InsertGoods(goods)], FindGoods(id));
    FoundAfter(inserted, FindGoods(id));
    Ends(s, Send(inserted, FindGoods(id)).0, stmts + [InsertGoods(goods)] + [FindGoods(id)]);
    assert stmts + [InsertGoods(goods)] + [FindGoods(id)] + [Commit] ==
      [SetIsolation, Start, InsertGoods(goods), FindGoods(id), Commit];
  }

  /** How login goes on once the user has been read. */
  function LoginRest(users: seq<User>, username: string, password: string, h: Hasher): seq<Statement> {
    var user := UserNamed(users, username);
    if user.None? || !h.verify(user.value.password, password) then [Rollback]
    else if !h.needsRehash(user.value.password) then [Commit]
    else
      match h.hash(password, 0)
      case None => [Rollback]
      case Some(hash) =>
        [SetPassword(user.value.id, hash),
         if PasswordsChanged(users, user.value.id, hash) == 1 then Commit else Rollback]
  }

  /** Login reads the user, replaces the hash only if it has aged, and commits only who was verified. */
  lemma {:induction false} LoginSends(s: Session, username: string, password: string, h: Hasher)
    requires Fit(s) && Faultless(s)
    ensures
      Exchanged(s, Login(s, username, password, h).0,
        [SetIsolation, Start, FindUser(username)] + LoginRest(s.db.users, username, password, h))
  {
    hide Send, Faultless, Exchanged, BeginOn, CommitOn, RollbackOn, UserNamed, PasswordsChanged;
    Begins(s);
    var begun := BeginOn(s).0;
    OneMore(s, begun, [SetIsolation, Start], FindUser(username));
    FoundAfter(begun, FindUser(username));
    var found := Send(begun, FindUser(username)).0;
    var stmts := [SetIsolation, Start] + [FindUser(username)];
    assert stmts == [SetIsolation, Start, FindUser(username)];
    Ends(s, found, stmts);
    var user := UserNamed(s.db.users, username);
    if user.Some? && h.hash(password, 0).Some? {
      var stmt := SetPassword(user.value.id, h.hash(password, 0).value);
      OneMore(s, found, stmts, stmt);
      Ends(s, Send(found, stmt).0, stmts + [stmt]);
      assert stmts + [stmt] + [Commit] == stmts + [stmt, Commit];
      assert stmts + [stmt] + [Rollback] == stmts + [stmt, Rollback];
    }
  }
}
