/**
 Producers, workers and the joining call of shutdown around one BoundedTaskQueue. Every critical
 section is one step, and so are running a task, each notify_all of shutdown, and each join.
 Tasks are numbered in the order in which they are accepted.
 */
module TaskQueueThreads {
  import opened TaskQueues

  datatype Worker = Asleep | Awake | Running(task: nat) | Exited

  datatype Producer = Elsewhere | Waiting | Trying

  /** How far the call of shutdown that set the flag has come. */
  datatype Stopper = Absent | Flagged | WorkersNotified | Joining(joined: nat) | Returned

  datatype System = System(
    queue: Queue<nat>,
    workers: seq<Worker>,
    producers: seq<Producer>,
    stopper: Stopper,
    accepted: nat,
    started: seq<nat>,
    done: seq<nat>)

  /** `woken` is the thread that a notify_one happens to choose. */
  datatype Action =
    | Call(producer: nat)
    | Try(producer: nat, woken: nat)
    | StirProducer(producer: nat)
    | Look(worker: nat, woken: nat)
    | StirWorker(worker: nat)
    | Finish(worker: nat)
    | Shutdown
    | NotifyWorkers
    | NotifyProducers
    | Join

  function AllAwake(n: nat): (r: seq<Worker>)
    ensures |r| == n
  {
    if n == 0 then [] else [Awake] + AllAwake(n - 1)
  }

  function AllElsewhere(n: nat): (r: seq<Producer>)
    ensures |r| == n
  {
    if n == 0 then [] else [Elsewhere] + AllElsewhere(n - 1)
  }

  /** A worker thread that was just created is about to look at the queue. */
  function Initial(limit: nat, workers: nat, producers: nat): System {
    System(Queue(limit, [], false), AllAwake(workers), AllElsewhere(producers), Absent, 0, [], [])
  }

  function PutWorker(s: System, w: nat, worker: Worker): System
    requires w < |s.workers|
  {
    s.(workers := s.workers[w := worker])
  }

  function PutProducer(s: System, p: nat, producer: Producer): System
    requires p < |s.producers|
  {
    s.(producers := s.producers[p := producer])
  }

  predicate MayWakeWorker(s: System, woken: nat) {
    Asleep in s.workers ==> woken < |s.workers| && s.workers[woken].Asleep?
  }

  function WakeWorker(s: System, woken: nat): System
    requires MayWakeWorker(s, woken)
  {
    if Asleep in s.workers then PutWorker(s, woken, Awake) else s
  }

  predicate MayWakeProducer(s: System, woken: nat) {
    Waiting in s.producers ==> woken < |s.producers| && s.producers[woken].Waiting?
  }

  function WakeProducer(s: System, woken: nat): System
    requires MayWakeProducer(s, woken)
  {
    if Waiting in s.producers then PutProducer(s, woken, Trying) else s
  }

  function Roused(workers: seq<Worker>): (r: seq<Worker>)
    ensures |r| == |workers|
    ensures forall w :: 0 <= w < |r| ==> r[w] == if workers[w].Asleep? then Awake else workers[w]
  {
    if workers == [] then []
    else [if workers[0].Asleep? then Awake else workers[0]] + Roused(workers[1..])
  }

  function Recalled(producers: seq<Producer>): (r: seq<Producer>)
    ensures |r| == |producers|
    ensures forall p :: 0 <= p < |r| ==> r[p] == if producers[p].Waiting? then Trying else producers[p]
  {
    if producers == [] then []
    else [if producers[0].Waiting? then Trying else producers[0]] + Recalled(producers[1..])
  }

  predicate Enabled(s: System, a: Action) {
    match a
    case Call(p) => p < |s.producers| && s.producers[p].Elsewhere?
    case Try(p, woken) => p < |s.producers| && s.producers[p].Trying? && MayWakeWorker(s, woken)
    case StirProducer(p) => p < |s.producers| && s.producers[p].Waiting?
    case Look(w, woken) => w < |s.workers| && s.workers[w].Awake? && MayWakeProducer(s, woken)
    case StirWorker(w) => w < |s.workers| && s.workers[w].Asleep?
    case Finish(w) => w < |s.workers| && s.workers[w].Running?
    case Shutdown => s.stopper.Absent?
    case NotifyWorkers => s.stopper.Flagged?
    case NotifyProducers => s.stopper.WorkersNotified?
    case Join =>
      s.stopper.Joining? &&
      (s.stopper.joined < |s.workers| ==> s.workers[s.stopper.joined].Exited?)
  }

  function Tried(s: System, p: nat, woken: nat): System
    requires p < |s.producers| && MayWakeWorker(s, woken)
  {
    var offered := Offered(s.queue, s.accepted);
    match offered.1
    case Accepted =>
      WakeWorker(PutProducer(s, p, Elsewhere).(queue := offered.0, accepted := s.accepted + 1), woken)
    case Dropped => PutProducer(s, p, Elsewhere)
    case Full => PutProducer(s, p, Waiting)
  }

  function Looked(s: System, w: nat, woken: nat): System
    requires w < |s.workers| && MayWakeProducer(s, woken)
  {
    var taken := Taken(s.queue);
    match taken.1
    case Task(task) =>
      WakeProducer(PutWorker(s, w, Running(task)).(queue := taken.0, started := s.started + [task]), woken)
    case Finished => PutWorker(s, w, Exited)
    case Nothing => PutWorker(s, w, Asleep)
  }

  function Step(s: System, a: Action): System
    requires Enabled(s, a)
  {
    match a
    case Call(p) => PutProducer(s, p, Trying)
    case Try(p, woken) => Tried(s, p, woken)
    case StirProducer(p) => PutProducer(s, p, Trying)
    case Look(w, woken) => Looked(s, w, woken)
    case StirWorker(w) => PutWorker(s, w, Awake)
    case Finish(w) => PutWorker(s, w, Awake).(done := s.done + [s.workers[w].task])
    case Shutdown => s.(queue := s.queue.(shuttingDown := true), stopper := Flagged)
    case NotifyWorkers => s.(workers := Roused(s.workers), stopper := WorkersNotified)
    case NotifyProducers => s.(producers := Recalled(s.producers), stopper := Joining(0))
    case Join =>
      if s.stopper.joined < |s.workers| then s.(stopper := Joining(s.stopper.joined + 1))
      else s.(stopper := Returned)
  }

  predicate Possible(s: System, actions: seq<Action>)
    decreases |actions|
  {
    actions == [] || (Enabled(s, actions[0]) && Possible(Step(s, actions[0]), actions[1..]))
  }

  function Run(s: System, actions: seq<Action>): System
    requires Possible(s, actions)
    decreases |actions|
  {
    if actions == [] then s else Run(Step(s, actions[0]), actions[1..])
  }

  // ---- Counting threads ----

  /** How many workers are about to look, and which tasks the workers are running. */
  datatype Hands = Hands(awake: int, tasks: multiset<nat>)

  function One(w: Worker): Hands {
    match w
    case Awake => Hands(1, multiset{})
    case Running(task) => Hands(0, multiset{task})
    case _ => Hands(0, multiset{})
  }

  function Plus(a: Hands, b: Hands): Hands {
    Hands(a.awake + b.awake, a.tasks + b.tasks)
  }

  function Count(workers: seq<Worker>): Hands {
    if workers == [] then Hands(0, multiset{}) else Plus(One(workers[0]), Count(workers[1..]))
  }

  lemma PlusMoves(a: Hands, b: Hands, c: Hands)
    ensures Plus(a, Plus(b, c)) == Plus(b, Plus(a, c))
  {
  }

  lemma {:induction false} CountUpdate(workers: seq<Worker>, w: nat, worker: Worker)
    requires w < |workers|
    ensures Plus(One(workers[w]), Count(workers[w := worker])) == Plus(One(worker), Count(workers))
  {
    hide One, Plus;
    var updated := workers[w := worker];
    if w == 0 {
      assert updated[1..] == workers[1..];
      PlusMoves(One(workers[0]), One(worker), Count(workers[1..]));
    } else {
      assert updated[1..] == workers[1..][w - 1 := worker];
      CountUpdate(workers[1..], w - 1, worker);
      PlusMoves(One(workers[w]), One(workers[0]), Count(updated[1..]));
      PlusMoves(One(worker), One(workers[0]), Count(workers[1..]));
    }
  }

  lemma Cancel(a: multiset<nat>, b: multiset<nat>, c: multiset<nat>)
    requires a + b == a + c
    ensures b == c
  {
    forall x
      ensures b[x] == c[x]
    {
      assert (a + b)[x] == (a + c)[x];
    }
  }

  /** What changes when one worker moves from `was` to `worker`. */
  lemma CountMove(workers: seq<Worker>, w: nat, worker: Worker)
    requires w < |workers|
    ensures
      var was, before, after := One(workers[w]), Count(workers), Count(workers[w := worker]);
      after.awake == before.awake - was.awake + One(worker).awake &&
      (was.tasks == One(worker).tasks ==> after.tasks == before.tasks) &&
      (was.tasks == multiset{} ==> after.tasks == One(worker).tasks + before.tasks) &&
      (One(worker).tasks == multiset{} ==> before.tasks == was.tasks + after.tasks)
  {
    hide One, Count;
    CountUpdate(workers, w, worker);
    if One(workers[w]).tasks == One(worker).tasks {
      Cancel(One(worker).tasks, Count(workers).tasks, Count(workers[w := worker]).tasks);
    }
  }

  lemma CountHead(workers: seq<Worker>)
    requires workers != []
    ensures Count(workers) == Plus(One(workers[0]), Count(workers[1..]))
  {
  }

  lemma HeadOrTail<T>(t: T, s: seq<T>)
    requires s != []
    ensures t in s <==> t == s[0] || t in s[1..]
  {
  }

  lemma {:induction false} CountSigns(workers: seq<Worker>)
    ensures Count(workers).awake >= 0
    ensures Count(workers).awake > 0 <==> Awake in workers
    ensures (forall w :: 0 <= w < |workers| ==> !workers[w].Running?) ==> Count(workers).tasks == multiset{}
  {
    if workers == [] {
      assert Count(workers) == Hands(0, multiset{});
    } else {
      hide Count;
      CountSigns(workers[1..]);
      CountHead(workers);
      HeadOrTail(Awake, workers);
    }
  }

  lemma {:induction false} RousedCounts(workers: seq<Worker>)
    ensures Count(Roused(workers)).tasks == Count(workers).tasks
    ensures Count(Roused(workers)).awake >= Count(workers).awake
  {
    if workers != [] {
      var roused := Roused(workers);
      assert roused[1..] == Roused(workers[1..]);
      RousedCounts(workers[1..]);
      CountHead(workers);
      CountHead(roused);
    }
  }

  function CountTrying(producers: seq<Producer>): nat {
    if producers == [] then 0
    else (if producers[0].Trying? then 1 else 0) + CountTrying(producers[1..])
  }

  lemma {:induction false} TryingUpdate(producers: seq<Producer>, p: nat, producer: Producer)
    requires p < |producers|
    ensures CountTrying(producers[p := producer]) + (if producers[p].Trying? then 1 else 0) ==
            CountTrying(producers) + (if producer.Trying? then 1 else 0)
  {
    var updated := producers[p := producer];
    if p == 0 {
      assert updated[1..] == producers[1..];
    } else {
      assert updated[1..] == producers[1..][p - 1 := producer];
      TryingUpdate(producers[1..], p - 1, producer);
    }
  }

  /** The numbers of the first n accepted tasks. */
  function First(n: nat): (r: seq<nat>)
    ensures |r| == n
    ensures forall i :: 0 <= i < n ==> r[i] == i
  {
    if n == 0 then [] else First(n - 1) + [n - 1]
  }

  // ---- What every interleaving keeps ----

  /** Tasks leave in the order of acceptance; each started one is running or done, exactly once. */
  predicate Accounted(s: System) {
    |s.queue.tasks| <= s.queue.limit &&
    s.started + s.queue.tasks == First(s.accepted) &&
    multiset(s.started) == Count(s.workers).tasks + multiset(s.done) &&
    (s.workers == [] ==> s.started == [])
  }

  /** While a worker sleeps, workers about to look cover the queue. */
  predicate WorkersCover(s: System) {
    Asleep in s.workers ==> Count(s.workers).awake >= |s.queue.tasks|
  }

  /** While a producer waits, producers about to try cover the room, until the queue shuts down. */
  predicate ProducersCover(s: System) {
    Waiting in s.producers && !s.queue.shuttingDown ==>
      CountTrying(s.producers) >= s.queue.limit - |s.queue.tasks|
  }

  predicate Orderly(s: System) {
    (s.stopper.Absent? <==> !s.queue.shuttingDown) &&
    (Exited in s.workers ==> s.queue.shuttingDown && s.queue.tasks == []) &&
    (Asleep in s.workers ==> s.stopper.Absent? || s.stopper.Flagged?) &&
    (Waiting in s.producers ==> !s.stopper.Joining? && !s.stopper.Returned?) &&
    (s.stopper.Joining? ==>
      s.stopper.joined <= |s.workers| &&
      forall w :: 0 <= w < s.stopper.joined ==> s.workers[w].Exited?) &&
    (s.stopper.Returned? ==> forall w :: 0 <= w < |s.workers| ==> s.workers[w].Exited?)
  }

  predicate Safe(s: System) {
    Accounted(s) && WorkersCover(s) && ProducersCover(s) && Orderly(s)
  }

  lemma NewlyIn<T>(s: seq<T>, i: nat, t: T, u: T)
    requires i < |s|
    ensures u in s[i := t] ==> u == t || u in s
    ensures t in s[i := t]
  {
    assert s[i := t][i] == t;
  }

  /** Every system step that only moves one worker, and takes nothing from the queue. */
  lemma WorkerMoves(s: System, w: nat, worker: Worker)
    requires w < |s.workers| && Safe(s)
    requires One(worker).tasks == One(s.workers[w]).tasks
    requires One(worker).awake >= One(s.workers[w]).awake || s.queue.tasks == []
    requires worker.Exited? ==> s.queue.shuttingDown && s.queue.tasks == []
    requires worker.Asleep? ==> !s.queue.shuttingDown && s.queue.tasks == []
    requires !s.workers[w].Exited?
    ensures Safe(PutWorker(s, w, worker))
  {
    hide Count, One, CountTrying, First;
    CountMove(s.workers, w, worker);
    CountSigns(s.workers[w := worker]);
    NewlyIn(s.workers, w, worker, Asleep);
    NewlyIn(s.workers, w, worker, Exited);
  }

  lemma ProducerMoves(s: System, p: nat, producer: Producer)
    requires p < |s.producers| && Safe(s)
    requires producer.Waiting? ==> !s.queue.shuttingDown && |s.queue.tasks| >= s.queue.limit
    requires producer.Trying? || s.queue.shuttingDown || producer.Waiting?
    ensures Safe(PutProducer(s, p, producer))
  {
    hide Count, CountTrying, First;
    TryingUpdate(s.producers, p, producer);
    NewlyIn(s.producers, p, producer, Waiting);
  }

  lemma WokenWorker(s: System, woken: nat)
    requires MayWakeWorker(s, woken) && Accounted(s) && ProducersCover(s) && Orderly(s)
    requires Asleep in s.workers ==> Count(s.workers).awake + 1 >= |s.queue.tasks|
    ensures Safe(WakeWorker(s, woken))
  {
    hide Count, CountTrying, First;
    if Asleep in s.workers {
      CountMove(s.workers, woken, Awake);
      NewlyIn(s.workers, woken, Awake, Asleep);
      NewlyIn(s.workers, woken, Awake, Exited);
    }
  }

  lemma AcceptedKeeps(s: System, p: nat, woken: nat)
    requires p < |s.producers| && s.producers[p].Trying? && MayWakeWorker(s, woken) && Safe(s)
    requires Offered(s.queue, s.accepted).1.Accepted?
    ensures Safe(Tried(s, p, woken))
  {
    hide Count, CountTrying;
    var s1 := PutProducer(s, p, Elsewhere).(
      queue := Offered(s.queue, s.accepted).0, accepted := s.accepted + 1);
    TryingUpdate(s.producers, p, Elsewhere);
    NewlyIn(s.producers, p, Elsewhere, Waiting);
    assert s1.started + s1.queue.tasks == (s.started + s.queue.tasks) + [s.accepted];
    WokenWorker(s1, woken);
  }

  lemma WokenProducer(s: System, woken: nat)
    requires MayWakeProducer(s, woken) && Accounted(s) && WorkersCover(s) && Orderly(s)
    requires Waiting in s.producers && !s.queue.shuttingDown ==>
      CountTrying(s.producers) + 1 >= s.queue.limit - |s.queue.tasks|
    ensures Safe(WakeProducer(s, woken))
  {
    hide Count, CountTrying, First;
    if Waiting in s.producers {
      TryingUpdate(s.producers, woken, Trying);
      NewlyIn(s.producers, woken, Trying, Waiting);
    }
  }

  lemma TakenKeeps(s: System, w: nat, woken: nat)
    requires w < |s.workers| && s.workers[w].Awake? && MayWakeProducer(s, woken) && Safe(s)
    requires Taken(s.queue).1.Task?
    ensures Safe(Looked(s, w, woken))
  {
    hide Count, CountTrying, First;
    var task := s.queue.tasks[0];
    var s1 := PutWorker(s, w, Running(task)).(queue := Taken(s.queue).0, started := s.started + [task]);
    CountMove(s.workers, w, Running(task));
    NewlyIn(s.workers, w, Running(task), Asleep);
    NewlyIn(s.workers, w, Running(task), Exited);
    assert s1.started + s1.queue.tasks == s.started + s.queue.tasks;
    assert multiset(s1.started) == multiset(s.started) + multiset{task};
    WokenProducer(s1, woken);
  }

  lemma HandOver(started: multiset<nat>, before: multiset<nat>, after: multiset<nat>, done: seq<nat>, task: nat)
    requires started == before + multiset(done) && before == multiset{task} + after
    ensures started == after + multiset(done + [task])
  {
    assert multiset(done + [task]) == multiset(done) + multiset{task};
  }

  lemma FinishKeeps(s: System, w: nat)
    requires w < |s.workers| && s.workers[w].Running? && Safe(s)
    ensures Safe(PutWorker(s, w, Awake).(done := s.done + [s.workers[w].task]))
  {
    hide Count, CountTrying, First, Plus;
    var workers := s.workers[w := Awake];
    CountMove(s.workers, w, Awake);
    HandOver(multiset(s.started), Count(s.workers).tasks, Count(workers).tasks, s.done, s.workers[w].task);
    NewlyIn(s.workers, w, Awake, Asleep);
    NewlyIn(s.workers, w, Awake, Exited);
  }

  lemma StopperKeeps(s: System, a: Action)
    requires a.Shutdown? || a.NotifyWorkers? || a.NotifyProducers? || a.Join?
    requires Enabled(s, a) && Safe(s)
    ensures Safe(Step(s, a))
  {
    hide Count, CountTrying, First, Roused, Recalled;
    if a.NotifyWorkers? {
      RousedKeeps(s);
    }
  }

  lemma RousedKeeps(s: System)
    requires s.stopper.Flagged? && Safe(s)
    ensures Safe(s.(workers := Roused(s.workers), stopper := WorkersNotified))
  {
    hide Count, CountTrying, First, Roused;
    RousedCounts(s.workers);
    var roused := Roused(s.workers);
    if Exited in roused {
      var w :| 0 <= w < |roused| && roused[w] == Exited;
      assert s.workers[w] == Exited;
    }
  }

  lemma {:induction false} StepKeeps(s: System, a: Action)
    requires Safe(s) && Enabled(s, a)
    ensures Safe(Step(s, a))
  {
    hide Safe, Count, CountTrying, PutWorker, PutProducer, WakeWorker, WakeProducer;
    match a
    case Call(p) => ProducerMoves(s, p, Trying);
    case StirProducer(p) => ProducerMoves(s, p, Trying);
    case StirWorker(w) => WorkerMoves(s, w, Awake);
    case Finish(w) => FinishKeeps(s, w);
    case Try(p, woken) =>
      match Offered(s.queue, s.accepted).1 {
        case Accepted => AcceptedKeeps(s, p, woken);
        case Dropped => ProducerMoves(s, p, Elsewhere);
        case Full => ProducerMoves(s, p, Waiting);
      }
    case Look(w, woken) =>
      match Taken(s.queue).1 {
        case Task(_) => TakenKeeps(s, w, woken);
        case Finished => WorkerMoves(s, w, Exited);
        case Nothing => WorkerMoves(s, w, Asleep);
      }
    case _ => StopperKeeps(s, a);
  }

  lemma {:induction false} InitialSafe(limit: nat, workers: nat, producers: nat)
    ensures Safe(Initial(limit, workers, producers))
  {
    hide Count, CountTrying;
    AllAwakeAwake(workers);
    AllElsewhereElsewhere(producers);
    CountSigns(AllAwake(workers));
  }

  lemma {:induction false} AllAwakeAwake(n: nat)
    ensures forall w :: 0 <= w < n ==> AllAwake(n)[w] == Awake
  {
    if n > 0 {
      AllAwakeAwake(n - 1);
    }
  }

  lemma {:induction false} AllElsewhereElsewhere(n: nat)
    ensures forall p :: 0 <= p < n ==> AllElsewhere(n)[p] == Elsewhere
  {
    if n > 0 {
      AllElsewhereElsewhere(n - 1);
    }
  }

  lemma {:induction false} Always(s: System, actions: seq<Action>)
    requires Safe(s) && Possible(s, actions)
    ensures Safe(Run(s, actions)) && |Run(s, actions).workers| == |s.workers|
    decreases |actions|
  {
    hide Safe;
    if actions != [] {
      StepKeeps(s, actions[0]);
      Always(Step(s, actions[0]), actions[1..]);
    }
  }

  lemma EveryInterleaving(limit: nat, workers: nat, producers: nat, actions: seq<Action>)
    requires Possible(Initial(limit, workers, producers), actions)
    ensures
      var s := Run(Initial(limit, workers, producers), actions);
      Safe(s) && |s.workers| == workers
  {
    InitialSafe(limit, workers, producers);
    Always(Initial(limit, workers, producers), actions);
  }

  /** Every accepted task is queued, running on one worker, or done: in one place, and once. */
  lemma {:induction false} EachTaskOnce(s: System)
    requires Safe(s)
    ensures multiset(First(s.accepted)) ==
            multiset(s.queue.tasks) + Count(s.workers).tasks + multiset(s.done)
  {
    hide Count, First;
    assert multiset(s.started + s.queue.tasks) == multiset(s.started) + multiset(s.queue.tasks);
  }

  /** Work that is queued always has a worker that is running a task or about to look. */
  lemma QueuedWorkIsAttended(s: System)
    requires Safe(s) && s.queue.tasks != [] && s.workers != []
    ensures exists w :: 0 <= w < |s.workers| && (s.workers[w].Awake? || s.workers[w].Running?)
  {
    hide Count, First, CountTrying;
    CountSigns(s.workers);
    if Awake in s.workers {
      var w :| 0 <= w < |s.workers| && s.workers[w] == Awake;
    } else {
      assert s.workers[0] in s.workers;
      assert Asleep !in s.workers && Exited !in s.workers;
      assert s.workers[0].Running?;
    }
  }

  /** No room is overlooked: while the queue is open, a waiting producer means somebody will try. */
  lemma RoomIsAttended(s: System)
    requires Safe(s) && Waiting in s.producers && HasRoom(s.queue)
    ensures Trying in s.producers || s.stopper.Flagged? || s.stopper.WorkersNotified?
  {
    hide Count, First, CountTrying;
    if !s.queue.shuttingDown {
      TryingSigns(s.producers);
    }
  }

  lemma {:induction false} TryingSigns(producers: seq<Producer>)
    ensures CountTrying(producers) > 0 ==> Trying in producers
  {
    if producers != [] {
      TryingSigns(producers[1..]);
      HeadOrTail(Trying, producers);
    }
  }

  /**
   When the joining call of shutdown returns, every accepted task has run to its end, unless the
   queue was built without workers and some task was accepted.
   */
  lemma ShutdownCompletes(limit: nat, workers: nat, producers: nat, actions: seq<Action>)
    requires Possible(Initial(limit, workers, producers), actions)
    requires Run(Initial(limit, workers, producers), actions).stopper.Returned?
    ensures
      var s := Run(Initial(limit, workers, producers), actions);
      multiset(s.done) == multiset(First(s.accepted)) <==> workers > 0 || s.accepted == 0
  {
    EveryInterleaving(limit, workers, producers, actions);
    var s := Run(Initial(limit, workers, producers), actions);
    hide Possible, Run, Initial, Count;
    CountSigns(s.workers);
    EachTaskOnce(s);
    if workers > 0 {
      assert s.workers[0] in s.workers;
      assert multiset(s.done) == multiset(First(s.accepted));
    } else if s.accepted > 0 {
      assert First(s.accepted)[0] in multiset(First(s.accepted));
      assert multiset(s.started) == multiset{};
      assert multiset(s.done) == multiset{};
    }
  }

  // ---- The shutdown comes to an end ----

  function Effort(w: Worker): nat {
    match w
    case Exited => 0
    case Awake => 1
    case _ => 2
  }

  function Efforts(workers: seq<Worker>): nat {
    if workers == [] then 0 else Effort(workers[0]) + Efforts(workers[1..])
  }

  function Patience(p: Producer): nat {
    match p
    case Elsewhere => 0
    case Trying => 1
    case Waiting => 2
  }

  function Patiences(producers: seq<Producer>): nat {
    if producers == [] then 0 else Patience(producers[0]) + Patiences(producers[1..])
  }

  function Remaining(stopper: Stopper, workers: nat): int {
    match stopper
    case Absent => workers + 4
    case Flagged => workers + 3
    case WorkersNotified => workers + 2
    case Joining(joined) => workers - joined + 1
    case Returned => 0
  }

  /** How many steps a queue that shuts down can still make, other than new calls of enqueue. */
  function Measure(s: System): int {
    2 * |s.queue.tasks| + Efforts(s.workers) + Patiences(s.producers) + Remaining(s.stopper, |s.workers|)
  }

  lemma {:induction false} EffortsUpdate(workers: seq<Worker>, w: nat, worker: Worker)
    requires w < |workers|
    ensures Efforts(workers[w := worker]) + Effort(workers[w]) == Efforts(workers) + Effort(worker)
  {
    hide Effort;
    var updated := workers[w := worker];
    if w == 0 {
      assert updated[1..] == workers[1..];
    } else {
      assert updated[1..] == workers[1..][w - 1 := worker];
      EffortsUpdate(workers[1..], w - 1, worker);
    }
  }

  lemma {:induction false} PatiencesUpdate(producers: seq<Producer>, p: nat, producer: Producer)
    requires p < |producers|
    ensures Patiences(producers[p := producer]) + Patience(producers[p]) ==
            Patiences(producers) + Patience(producer)
  {
    hide Patience;
    var updated := producers[p := producer];
    if p == 0 {
      assert updated[1..] == producers[1..];
    } else {
      assert updated[1..] == producers[1..][p - 1 := producer];
      PatiencesUpdate(producers[1..], p - 1, producer);
    }
  }

  lemma {:induction false} RousedEffort(workers: seq<Worker>)
    ensures Efforts(Roused(workers)) <= Efforts(workers)
  {
    if workers != [] {
      assert Roused(workers)[1..] == Roused(workers[1..]);
      RousedEffort(workers[1..]);
    }
  }

  lemma {:induction false} RecalledPatience(producers: seq<Producer>)
    ensures Patiences(Recalled(producers)) <= Patiences(producers)
  {
    if producers != [] {
      assert Recalled(producers)[1..] == Recalled(producers[1..]);
      RecalledPatience(producers[1..]);
    }
  }

  lemma WakingCosts(s: System, woken: nat)
    requires MayWakeProducer(s, woken)
    ensures Measure(WakeProducer(s, woken)) <= Measure(s)
  {
    hide Efforts, Patiences;
    if Waiting in s.producers {
      PatiencesUpdate(s.producers, woken, Trying);
    }
  }

  lemma LookCosts(s: System, w: nat, woken: nat)
    requires w < |s.workers| && s.workers[w].Awake? && MayWakeProducer(s, woken) && s.queue.shuttingDown
    ensures Measure(Looked(s, w, woken)) < Measure(s)
  {
    hide Efforts, Patiences;
    if s.queue.tasks == [] {
      EffortsUpdate(s.workers, w, Exited);
    } else {
      var task := s.queue.tasks[0];
      EffortsUpdate(s.workers, w, Running(task));
      WakingCosts(PutWorker(s, w, Running(task)).(
        queue := Taken(s.queue).0, started := s.started + [task]), woken);
    }
  }

  lemma StopperCosts(s: System, a: Action)
    requires a.NotifyWorkers? || a.NotifyProducers? || a.Join?
    requires Enabled(s, a) && Orderly(s)
    ensures Measure(Step(s, a)) < Measure(s)
  {
    hide Efforts, Patiences, Roused, Recalled;
    if a.NotifyWorkers? {
      RousedEffort(s.workers);
    }
    if a.NotifyProducers? {
      RecalledPatience(s.producers);
    }
  }

  lemma StepCosts(s: System, a: Action)
    requires Safe(s) && s.queue.shuttingDown && Enabled(s, a)
    ensures Step(s, a).queue.shuttingDown
    ensures Measure(Step(s, a)) <= Measure(s) + (if a.Call? then 1 else -1)
  {
    hide Efforts, Patiences, Roused, Recalled, Accounted, WorkersCover, ProducersCover;
    match a
    case Call(p) => PatiencesUpdate(s.producers, p, Trying);
    case StirProducer(p) => PatiencesUpdate(s.producers, p, Trying);
    case StirWorker(w) => EffortsUpdate(s.workers, w, Awake);
    case Finish(w) => EffortsUpdate(s.workers, w, Awake);
    case Try(p, woken) => PatiencesUpdate(s.producers, p, Elsewhere);
    case Look(w, woken) => LookCosts(s, w, woken);
    case Shutdown => assert false;
    case _ => StopperCosts(s, a);
  }

  function Calls(actions: seq<Action>): nat {
    if actions == [] then 0 else (if actions[0].Call? then 1 else 0) + Calls(actions[1..])
  }

  /** From the flag on, only so many steps are possible; a new caller adds at most two. */
  lemma {:induction false} DrainIsBounded(s: System, actions: seq<Action>)
    requires Safe(s) && s.queue.shuttingDown && Possible(s, actions)
    ensures |actions| <= Measure(s) + 2 * Calls(actions)
    decreases |actions|
  {
    hide Safe, Step, Measure;
    if actions != [] {
      StepKeeps(s, actions[0]);
      StepCosts(s, actions[0]);
      DrainIsBounded(Step(s, actions[0]), actions[1..]);
    } else {
      MeasureIsNatural(s);
    }
  }

  lemma MeasureIsNatural(s: System)
    requires Safe(s)
    ensures Measure(s) >= 0
  {
  }

  /** Neither a new call nor a spurious wakeup. */
  predicate OwnStep(a: Action) {
    !a.Call? && !a.StirProducer? && !a.StirWorker?
  }

  /** Until the joining call has returned, some thread of the queue itself can go on. */
  lemma DrainNeverStops(s: System) returns (a: Action)
    requires Safe(s) && s.queue.shuttingDown && !s.stopper.Returned?
    ensures Enabled(s, a) && OwnStep(a)
  {
    hide Accounted, WorkersCover, ProducersCover;
    match s.stopper
    case Flagged => a := NotifyWorkers;
    case WorkersNotified => a := NotifyProducers;
    case Joining(joined) =>
      if joined < |s.workers| && !s.workers[joined].Exited? {
        assert s.workers[joined] in s.workers;
        a := if s.workers[joined].Running? then Finish(joined) else Look(joined, 0);
      } else {
        a := Join;
      }
  }

  /** Whatever has happened before, the threads of the queue alone bring shutdown to its return. */
  lemma {:induction false} ShutdownReturns(s: System) returns (actions: seq<Action>)
    requires Safe(s) && s.queue.shuttingDown
    ensures Possible(s, actions) && Run(s, actions).stopper.Returned?
    ensures forall a :: a in actions ==> OwnStep(a)
    decreases Measure(s)
  {
    hide Safe, Step, Measure, Enabled;
    MeasureIsNatural(s);
    if s.stopper.Returned? {
      actions := [];
    } else {
      var a := DrainNeverStops(s);
      StepKeeps(s, a);
      StepCosts(s, a);
      MeasureIsNatural(Step(s, a));
      var rest := ShutdownReturns(Step(s, a));
      actions := [a] + rest;
      assert actions[1..] == rest;
    }
  }
}
