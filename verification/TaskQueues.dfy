/** LegacyBoundedTaskQueue (legacy_http_server.cpp:29-92): the state that its mutex guards. */
module TaskQueues {
  datatype Queue<T> = Queue(limit: nat, tasks: seq<T>, shuttingDown: bool)

  /** The condition under which a producer stops waiting. */
  predicate HasRoom<T>(q: Queue<T>) {
    q.shuttingDown || |q.tasks| < q.limit
  }

  /** The condition under which a worker stops waiting. */
  predicate HasNews<T>(q: Queue<T>) {
    q.shuttingDown || q.tasks != []
  }

  datatype Offer = Accepted | Dropped | Full

  /** Lines 42-48: a queue that shuts down drops the task. */
  function Offered<T>(q: Queue<T>, task: T): (r: (Queue<T>, Offer)) {
    if !HasRoom(q) then (q, Full)
    else if q.shuttingDown then (q, Dropped)
    else (q.(tasks := q.tasks + [task]), Accepted)
  }

  datatype Next<+T> = Task(task: T) | Finished | Nothing

  /** Lines 69-79: work that is queued comes before the end. */
  function Taken<T>(q: Queue<T>): (r: (Queue<T>, Next<T>)) {
    if !HasNews(q) then (q, Nothing)
    else if q.tasks == [] then (q, Finished)
    else (q.(tasks := q.tasks[1..]), Task(q.tasks[0]))
  }

  class BoundedTaskQueue<T> {
    const limit: nat
    var tasks: seq<T>
    var shuttingDown: bool

    function State(): Queue<T>
      reads this
    {
      Queue(limit, tasks, shuttingDown)
    }

    constructor (limit: nat)
      ensures State() == Queue(limit, [], false)
    {
      this.limit := limit;
      tasks, shuttingDown := [], false;
    }

    /** `Full` is the wait for room. */
    method Enqueue(task: T) returns (offer: Offer)
      modifies this
      ensures (State(), offer) == Offered(old(State()), task)
    {
      if !shuttingDown && |tasks| >= limit {
        return Full;
      }
      if shuttingDown {
        return Dropped;
      }
      tasks := tasks + [task];
      return Accepted;
    }

    /** `Nothing` is the wait for work. */
    method RunWorker() returns (next: Next<T>)
      modifies this
      ensures (State(), next) == Taken(old(State()))
    {
      if !shuttingDown && |tasks| == 0 {
        return Nothing;
      }
      if |tasks| == 0 {
        return Finished;
      }
      var task := tasks[0];
      tasks := tasks[1..];
      return Task(task);
    }

    /** Only the caller that sets the flag goes on to notify and join. */
    method Shutdown() returns (joins: bool)
      modifies this
      ensures State() == old(State()).(shuttingDown := true)
      ensures joins <==> !old(shuttingDown)
    {
      if shuttingDown {
        return false;
      }
      shuttingDown := true;
      return true;
    }
  }
}
