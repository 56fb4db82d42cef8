/** ConnectionPool and ConnectionLease (connection_pool.cpp). */
module ConnectionPools {
  import opened Wrappers
  import opened Sql

  /** What the mutex guards: the idle connections and the number of slots in use. */
  datatype Pool<C> = Pool(capacity: nat, available: seq<C>, total: nat)

  /** The predicate of the wait. */
  predicate Ready<C>(p: Pool<C>) {
    p.available != [] || p.total < p.capacity
  }

  /** Slots that a waiting thread could be given. */
  function Free<C>(p: Pool<C>): int {
    |p.available| + p.capacity - p.total
  }

  /** Lines 61-67: the last idle connection, or else a slot reserved for a new one. */
  function Taken<C>(p: Pool<C>): (r: (Pool<C>, Option<C>))
    requires Ready(p)
  {
    if p.available != [] then
      (p.(available := p.available[..|p.available| - 1]), Some(p.available[|p.available| - 1]))
    else (p.(total := p.total + 1), None)
  }

  /** Line 72: the slot of a connection that could not be created. */
  function Unreserved<C>(p: Pool<C>): Pool<C> {
    if p.total > 0 then p.(total := p.total - 1) else p
  }

  /** Lines 93-97: a connection comes back, or its slot does. */
  function Returned<C>(p: Pool<C>, c: C, reusable: bool): Pool<C> {
    if reusable then p.(available := p.available + [c])
    else if p.total > 0 then p.(total := p.total - 1)
    else p
  }

  /** The connection given back last is the next one given out, and the pool is then as before. */
  lemma LastBackFirstOut<C>(p: Pool<C>, c: C)
    ensures Ready(Returned(p, c, true)) && Taken(Returned(p, c, true)) == (p, Some(c))
  {
  }

  /**
   Taking uses up exactly one free slot, a new connection only if none is idle; giving back, poisoned
   or not, and giving up a reserved slot free exactly one.
   */
  lemma SlotsBalance<C>(p: Pool<C>, c: C, reusable: bool)
    ensures Ready(p) ==>
      Free(Taken(p).0) == Free(p) - 1 && (Taken(p).1.None? <==> p.available == []) &&
      Taken(p).0.total - p.total == (if Taken(p).1.None? then 1 else 0)
    ensures p.total > 0 ==> Free(Returned(p, c, reusable)) == Free(p) + 1 && Free(Unreserved(p)) == Free(p) + 1
    ensures Ready(p) && p.available == [] ==> Unreserved(Taken(p).0) == p
    ensures c in Returned(p, c, reusable).available ==> reusable || c in p.available
  {
  }

  datatype Outcome<+C> = Exhausted | Reused(connection: C) | Reserved

  /** The critical sections of the pool. Waiting and waking are steps of PoolThreads. */
  class ConnectionPool {
    const capacity: nat
    var available: seq<SqlExecutor>
    var total: nat

    function State(): Pool<SqlExecutor>
      reads this
    {
      Pool(capacity, available, total)
    }

    /** No idle connection is poisoned or in a transaction. */
    ghost predicate Clean()
      reads this, available
    {
      forall e :: e in available ==> Fit(e.session)
    }

    /** The connection that the next caller would be given. */
    ghost function Chosen(created: Option<SqlExecutor>): Option<SqlExecutor>
      reads this
    {
      if !Ready(State()) then None
      else if Taken(State()).1.Some? then Taken(State()).1
      else created
    }

    ghost function Ward(created: Option<SqlExecutor>): set<object>
      reads this
    {
      if Chosen(created).Some? then {Chosen(created).value} else {}
    }

    /** Idle connections are distinct and fit for use, and a created one is new and as good. */
    ghost predicate Sound(created: Option<SqlExecutor>)
      reads this, available, if created.Some? then {created.value} else {}
    {
      Clean() &&
      (forall i, j :: 0 <= i < j < |available| ==> available[i] != available[j]) &&
      (created.Some? ==> created.value !in available && Fit(created.value.session))
    }

    constructor (capacity: nat)
      requires capacity > 0
      ensures State() == Pool(capacity, [], 0)
    {
      this.capacity := capacity;
      available, total := [], 0;
    }

    /** Acquire up to the point where the mutex is left; `Exhausted` is the wait that timed out. */
    method Enter() returns (outcome: Outcome<SqlExecutor>)
      modifies this
      ensures outcome.Exhausted? <==> !Ready(old(State()))
      ensures outcome.Exhausted? ==> State() == old(State())
      ensures outcome.Reused? ==> (State(), Some(outcome.connection)) == Taken(old(State()))
      ensures outcome.Reserved? ==> (State(), None) == Taken(old(State()))
    {
      if |available| == 0 && total >= capacity {
        return Exhausted;
      }
      if |available| > 0 {
        var executor := available[|available| - 1];
        available := available[..|available| - 1];
        return Reused(executor);
      }
      total := total + 1;
      return Reserved;
    }

    method CreationFailed()
      requires total > 0
      modifies this
      ensures State() == Unreserved(old(State()))
    {
      total := total - 1;
    }

    /** `created` is what the factory would return. */
    method Acquire(created: Option<SqlExecutor>) returns (lease: Option<ConnectionLease>)
      modifies this
      ensures lease.None? ==> State() == old(State())
      ensures lease.Some? ==> fresh(lease.value) && lease.value.pool == this && lease.value.executor != null
      ensures lease.Some? <==> old(Chosen(created)).Some?
      ensures lease.Some? ==>
        Some(lease.value.executor) == old(Chosen(created)) && State() == Taken(old(State())).0
    {
      var outcome := Enter();
      match outcome
      case Exhausted => return None;
      case Reused(executor) =>
        var l := new ConnectionLease(this, executor);
        return Some(l);
      case Reserved =>
        if created.None? {
          CreationFailed();
          return None;
        }
        var l := new ConnectionLease(this, created.value);
        return Some(l);
    }

    method GiveBack(executor: SqlExecutor)
      modifies this
      ensures State() == Returned(old(State()), executor, !executor.session.poisoned)
    {
      if executor.Reusable() {
        available := available + [executor];
      } else if total > 0 {
        total := total - 1;
      }
    }
  }

  class ConnectionLease {
    var pool: ConnectionPool?
    var executor: SqlExecutor?

    constructor (pool: ConnectionPool, executor: SqlExecutor)
      ensures this.pool == pool && this.executor == executor
    {
      this.pool, this.executor := pool, executor;
    }

    /** The move constructor: the source lease is left empty. */
    constructor Move(other: ConnectionLease)
      modifies other
      ensures pool == old(other.pool) && executor == old(other.executor)
      ensures other.pool == null && other.executor == null
    {
      pool, executor := other.pool, other.executor;
      new;
      other.pool, other.executor := null, null;
    }

    /** Gives the connection back; a lease that is empty, or has been released, does nothing. */
    method Release()
      modifies this, pool
      ensures pool == null
      ensures old(pool) != null && old(executor) != null ==>
        executor == null &&
        old(pool).State() == Returned(old(pool.State()), old(executor), !old(executor).session.poisoned)
      ensures old(pool) != null && old(executor) == null ==> old(pool).State() == old(pool.State())
      ensures old(pool) == null ==> executor == old(executor)
    {
      if pool != null && executor != null {
        pool.GiveBack(executor);
        executor := null;
      }
      pool := null;
    }

    /** Move assignment: the connection held so far is given back first. */
    method Assign(other: ConnectionLease)
      modifies this, other, pool
      ensures other == this ==> pool == old(pool) && executor == old(executor)
      ensures other != this ==>
        pool == old(other.pool) && executor == old(other.executor) &&
        other.pool == null && other.executor == null
      ensures other != this && old(pool) != null && old(executor) != null ==>
        old(pool).State() == Returned(old(pool.State()), old(executor), !old(executor).session.poisoned)
      ensures other == this && old(pool) != null ==> old(pool).State() == old(pool.State())
    {
      if this != other {
        Release();
        pool, executor := other.pool, other.executor;
        other.pool, other.executor := null, null;
      }
    }
  }
}
