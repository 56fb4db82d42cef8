/** MySqlLegacyUnitOfWork and its factory (legacy_unit_of_work.cpp:226-268). */
module UnitsOfWork {
  import opened Wrappers
  import opened Sql
  import opened Transactions
  import opened ConnectionPools

  /** A leased connection with the transaction on it. */
  class UnitOfWork {
    const lease: ConnectionLease
    const transaction: Transaction

    ghost predicate Valid()
      reads this, lease, transaction
    {
      lease.pool != null && lease.executor != null && transaction.executor == lease.executor
    }

    ghost predicate Holds(pool: ConnectionPool, executor: SqlExecutor)
      reads this, lease, transaction
    {
      Valid() && lease.pool == pool && lease.executor == executor
    }

    /** Both arguments are moved from. */
    constructor (lease: ConnectionLease, transaction: Transaction)
      modifies lease, transaction
      ensures fresh(this.lease) && fresh(this.transaction)
      ensures this.lease.pool == old(lease.pool) && this.lease.executor == old(lease.executor)
      ensures this.transaction.executor == old(transaction.executor)
      ensures this.transaction.active == old(transaction.active)
    {
      this.lease := new ConnectionLease.Move(lease);
      this.transaction := new Transaction.Move(transaction);
    }

    method Execute(stmt: Statement) returns (ok: bool)
      requires Valid()
      modifies lease.executor
      ensures (lease.executor.session, ok) == Send(old(lease.executor.session), stmt)
    {
      ok := lease.executor.Execute(stmt);
    }

    method DoCommit() returns (ok: bool)
      requires Valid()
      modifies transaction, lease.executor
      ensures Valid() && !transaction.active
      ensures if old(transaction.active) then (lease.executor.session, ok) == CommitOn(old(lease.executor.session))
              else ok && lease.executor.session == old(lease.executor.session)
    {
      ok := transaction.DoCommit();
    }

    method DoRollback()
      requires Valid()
      modifies transaction, lease.executor
      ensures Valid() && !transaction.active
      ensures lease.executor.session ==
        if old(transaction.active) then RollbackOn(old(lease.executor.session)) else old(lease.executor.session)
    {
      transaction.DoRollback();
    }

    /** Members are destroyed last to first: the transaction ends before the connection goes back. */
    method Destroy()
      requires Valid()
      modifies transaction, lease, lease.executor, lease.pool
      ensures old(lease.executor).session ==
        if old(transaction.active) then RollbackOn(old(lease.executor.session)) else old(lease.executor.session)
      ensures old(lease.pool).State() ==
        Returned(old(lease.pool.State()), old(lease.executor), !old(lease.executor).session.poisoned)
    {
      transaction.Destroy();
      lease.Release();
    }
  }

  /** The factory; when the transaction does not begin, the lease gives its connection back. */
  method Begin(pool: ConnectionPool, created: Option<SqlExecutor>) returns (unit: Option<UnitOfWork>)
    modifies pool, pool.Ward(created)
    ensures old(pool.Chosen(created)).None? ==> unit.None? && pool.State() == old(pool.State())
    ensures old(pool.Chosen(created)).Some? ==>
      var e := old(pool.Chosen(created)).value;
      e.session == BeginOn(old(e.session)).0 && unit.Some? == BeginOn(old(e.session)).1 &&
      pool.State() == (
        if unit.Some? then Taken(old(pool.State())).0
        else Returned(Taken(old(pool.State())).0, e, !e.session.poisoned))
    ensures unit.Some? ==>
      fresh(unit.value) && fresh(unit.value.lease) && fresh(unit.value.transaction) &&
      unit.value.Holds(pool, old(pool.Chosen(created)).value) && unit.value.transaction.active
  {
    var lease := pool.Acquire(created);
    if lease.None? {
      return None;
    }
    var executor := lease.value.executor;
    var transaction := Transaction.Begin(executor);
    if transaction.None? {
      lease.value.Release();
      return None;
    }
    var u := new UnitOfWork(lease.value, transaction.value);
    return Some(u);
  }
}
