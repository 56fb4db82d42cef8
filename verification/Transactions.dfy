/** Transaction (transaction.cpp): a handle on the open transaction of one session. */
module Transactions {
  import opened Wrappers
  import opened Sql

  /** What Transaction::begin does to the session: a failure poisons it. */
  function BeginOn(s: Session): (r: (Session, bool)) {
    var isolated := Send(s, SetIsolation);
    if !isolated.1 then (Poison(isolated.0), false)
    else
      var started := Send(isolated.0, Start);
      if !started.1 then (Poison(started.0), false) else started
  }

  /** COMMIT by the active handle: an unknown outcome poisons the session. */
  function CommitOn(s: Session): (r: (Session, bool)) {
    var committed := Send(s, Commit);
    if committed.1 then committed else (Poison(committed.0), false)
  }

  function RollbackOn(s: Session): Session {
    var rolledBack := Send(s, Rollback);
    if rolledBack.1 then rolledBack.0 else Poison(rolledBack.0)
  }

  lemma AnsweredBegin(s: Session)
    requires Faultless(s)
    ensures
      var r := BeginOn(s);
      r.1 && Faultless(r.0) &&
      r.0 == s.(db := View(s), txn := Some(View(s)), fates := r.0.fates, log := r.0.log)
  {
    hide Send;
    AnsweredSend(s, SetIsolation);
    AnsweredSend(Send(s, SetIsolation).0, Start);
  }

  class Transaction {
    var executor: SqlExecutor?
    var active: bool

    ghost predicate Valid()
      reads this
    {
      active ==> executor != null
    }

    /** The session objects this handle may still speak to. */
    ghost function Reach(): set<object>
      reads this
    {
      if executor == null then {} else {executor}
    }

    constructor Of(executor: SqlExecutor)
      ensures this.executor == executor && active
    {
      this.executor := executor;
      active := true;
    }

    static method Begin(executor: SqlExecutor) returns (t: Option<Transaction>)
      modifies executor
      ensures (executor.session, t.Some?) == BeginOn(old(executor.session))
      ensures t.Some? ==> fresh(t.value) && t.value.executor == executor && t.value.active
    {
      var isolated := executor.Execute(SetIsolation);
      if !isolated {
        executor.MarkPoisoned();
        return None;
      }
      var started := executor.Execute(Start);
      if !started {
        executor.MarkPoisoned();
        return None;
      }
      var transaction := new Transaction.Of(executor);
      return Some(transaction);
    }

    /** The move constructor: the source handle is left empty. */
    constructor Move(other: Transaction)
      modifies other
      ensures executor == old(other.executor) && active == old(other.active)
      ensures other.executor == null && !other.active
    {
      executor := other.executor;
      active := other.active;
      new;
      other.executor := null;
      other.active := false;
    }

    /** Move assignment: the transaction held so far is rolled back first. */
    method Assign(other: Transaction)
      requires Valid() && other.Valid()
      modifies this, other, Reach()
      ensures other != this ==>
        executor == old(other.executor) && active == old(other.active) &&
        other.executor == null && !other.active
      ensures other == this ==> executor == old(executor) && active == old(active)
      ensures old(executor) != null ==>
        old(executor).session ==
          (if other != this && old(active) then RollbackOn(old(executor.session)) else old(executor.session))
    {
      if this != other {
        DoRollback();
        executor := other.executor;
        active := other.active;
        other.executor := null;
        other.active := false;
      }
    }

    method DoCommit() returns (ok: bool)
      requires Valid()
      modifies this, Reach()
      ensures executor == old(executor) && !active
      ensures if old(active) then (executor.session, ok) == CommitOn(old(executor.session))
              else ok && (executor != null ==> executor.session == old(executor.session))
    {
      if !active {
        return true;
      }
      ok := executor.Execute(Commit);
      active := false;
      if !ok {
        executor.MarkPoisoned();
      }
    }

    method DoRollback()
      requires Valid()
      modifies this, Reach()
      ensures executor == old(executor) && !active
      ensures executor != null ==>
        executor.session ==
          (if old(active) then RollbackOn(old(executor.session)) else old(executor.session))
    {
      if !active {
        return;
      }
      var ok := executor.Execute(Rollback);
      active := false;
      if !ok {
        executor.MarkPoisoned();
      }
    }

    /** The destructor. */
    method Destroy()
      requires Valid()
      modifies this, Reach()
      ensures executor == old(executor) && !active
      ensures executor != null ==>
        executor.session ==
          (if old(active) then RollbackOn(old(executor.session)) else old(executor.session))
    {
      DoRollback();
    }
  }
}
