/**
 When a push is missed and when it is served, and when deleting the pool hangs. Workers
 left to themselves take a bounded number of steps; what is left undone then is decided
 by where they stood.
 */
module ThreadPoolProgress {
  import opened ThreadPool
  import opened ThreadPoolInvariant
  import opened ThreadPoolSafety

  // ---------------------------------------------------------------- a bound on the workers' steps

  /** The steps to the next sleep, from the end; a worker with no step to take has none. */
  function Rank(w: Worker): nat {
    match w
    case Asleep => 0
    case Exited => 0
    case IdleWait => 1
    case IdleCheck => 2
    case IdleLock => 3
    case Pop => 4
    case Woken => 5
    case Dec => 5
    case UnlockFinished(_) => 6
    case FreeTask(_) => 6
    case Broadcast(_) => 7
    case FreeCheck(_) => 7
    case SetFinished(_) => 8
    case UnlockFree(_) => 8
    case SetFree(_) => 9
    case CheckDetached(_) => 10
    case LockTask(_) => 11
    case Exec(_) => 12
    case Inc(_) => 13
    case SetRunning(_) => 14
  }

  function Ranks(workers: seq<Worker>): nat {
    if workers == [] then 0 else Ranks(workers[..|workers| - 1]) + Rank(workers[|workers| - 1])
  }

  lemma {:induction false} RanksSet(workers: seq<Worker>, i: nat, w: Worker)
    requires i < |workers|
    ensures Ranks(workers[i := w]) == Ranks(workers) - Rank(workers[i]) + Rank(w)
  {
    var n := |workers| - 1;
    if i < n {
      RanksSet(workers[..n], i, w);
      assert workers[i := w][..n] == workers[..n][i := w];
    } else {
      assert workers[i := w][..n] == workers[..n];
    }
  }

  /** How many steps the workers can take before they all sleep or have ended. */
  function StepsLeft(s: State): nat { Ranks(s.workers) + 11 * |s.queue| }

  predicate OfWorker(e: Event) { e.Work? || e.Execute? }

  /** What a step of worker i does to the workers and the queue. */
  lemma WorkerMoves(s: State, e: Event)
    requires Inv(s) && Enabled(s, e) && OfWorker(e)
    ensures var s' := Step(s, e);
            && |s'.workers| == |s.workers| && s'.workers == s.workers[e.i := s'.workers[e.i]] && s'.deleting == s.deleting
            && (if s.workers[e.i].Pop? && s.queue != []
                then s'.queue == s.queue[1..] && s'.workers[e.i].SetRunning?
                else s'.queue == s.queue && Rank(s'.workers[e.i]) < Rank(s.workers[e.i]))
            && (s.workers[e.i].Pop? && s.queue == [] ==> s'.workers[e.i] == IdleLock)
            && (!s.workers[e.i].Pop? && !Doomed(s.workers[e.i]) ==> !Doomed(s'.workers[e.i]))
            && (Doomed(s.workers[e.i]) ==> Doomed(s'.workers[e.i]))
            && (s.workers[e.i].IdleCheck? && s.deleting ==> s'.workers[e.i].Exited?)
            && (!s.workers[e.i].IdleCheck? && !s.workers[e.i].IdleWait? ==> !s'.workers[e.i].IdleWait? && !s'.workers[e.i].Asleep?)
  {
    PoolStillThere(s, e);
    if s.workers[e.i].Pop? {
      assert QueueOk(s);
      assert s.queue != [] ==> TaskOk(s, s.queue[0]);
      hide Inv, TaskOk, QueueOk, WorkTask, WorkIdle, RunTask;
    } else if Holds(s.workers[e.i]) {
      hide Inv;
      HolderMoves(s, e);
    } else {
      hide Inv, WorkTask, PopFront, RunTask;
    }
  }

  lemma HolderMoves(s: State, e: Event)
    requires Inv(s) && Enabled(s, e) && OfWorker(e) && Holds(s.workers[e.i])
    ensures var s' := Step(s, e);
            && |s'.workers| == |s.workers| && s'.workers == s.workers[e.i := s'.workers[e.i]] && s'.deleting == s.deleting
            && s'.queue == s.queue && Rank(s'.workers[e.i]) < Rank(s.workers[e.i]) && !Doomed(s'.workers[e.i])
  {
    var i, s' := e.i, Step(s, e);
    InvAtWorker(s, i);
    AliveAt(s, i);
    if e.Work? {
      PoolAlive(s, i);
      WorkElsewhere(s, i);
      RankFalls(s, i);
    } else {
      ExecuteElsewhere(s, i, e.value);
    }
    hide Inv, AtWorker, WorkTask, RunTask, Rank;
    assert s'.workers == s.workers[i := s'.workers[i]];
  }

  /** Where worker i is after a step on its task. */
  function Place(s: State, i: nat): Worker
    requires i < |s.workers| && Holds(s.workers[i]) && Alive(s, s.workers[i].t)
  {
    var t := s.workers[i].t;
    match s.workers[i]
    case SetRunning(_) => Inc(t)
    case Inc(_) => Exec(t)
    case LockTask(_) => CheckDetached(t)
    case CheckDetached(_) => if s.tasks[t].detached then SetFree(t) else SetFinished(t)
    case SetFree(_) => UnlockFree(t)
    case UnlockFree(_) => FreeCheck(t)
    case FreeCheck(_) => if s.tasks[t].status == Free || s.tasks[t].status == Finished then FreeTask(t) else Dec
    case SetFinished(_) => Broadcast(t)
    case Broadcast(_) => UnlockFinished(t)
    case _ => Dec
  }

  /** The task of worker i after a step on it. */
  function TaskAfter(s: State, i: nat): Task
    requires i < |s.workers| && Holds(s.workers[i]) && Alive(s, s.workers[i].t)
  {
    var task := s.tasks[s.workers[i].t];
    match s.workers[i]
    case SetRunning(_) => task.(status := Running)
    case LockTask(_) => task.(mutex := ByWorker(i))
    case SetFree(_) => task.(status := Free)
    case UnlockFree(_) => task.(mutex := Nobody)
    case FreeTask(_) => if task.mutex != Nobody then task else task.(stage := Dead)
    case SetFinished(_) => task.(status := Finished)
    case UnlockFinished(_) => task.(mutex := Nobody, stage := Done)
    case _ => task
  }

  /** A step of worker i on its task, part by part. */
  function Worked(s: State, i: nat): State
    requires i < |s.workers| && Holds(s.workers[i]) && Alive(s, s.workers[i].t)
  {
    var w := s.workers[i];
    s.(tasks := s.tasks[w.t := TaskAfter(s, i)], workers := s.workers[i := Place(s, i)],
       running := if w.Inc? then s.running + 1 else s.running,
       client := if w.Broadcast? && s.client.JoinAsleep? && s.client.t == w.t then JoinRelock(w.t, false) else s.client,
       fault := s.fault || (w.FreeTask? && s.tasks[w.t].mutex != Nobody))
  }

  lemma StartWorked(s: State, i: nat)
    requires i < |s.workers| && (s.workers[i].SetRunning? || s.workers[i].Inc?)
    requires Alive(s, s.workers[i].t)
    ensures WorkTask(s, i) == Worked(s, i)
  {
    assert s.tasks[s.workers[i].t := s.tasks[s.workers[i].t]] == s.tasks;
  }

  lemma LockWorked(s: State, i: nat)
    requires i < |s.workers| && (s.workers[i].LockTask? || s.workers[i].CheckDetached?)
    requires Alive(s, s.workers[i].t)
    ensures WorkTask(s, i) == Worked(s, i)
  {
    assert s.tasks[s.workers[i].t := s.tasks[s.workers[i].t]] == s.tasks;
  }

  lemma FreeWorked(s: State, i: nat)
    requires i < |s.workers| && (s.workers[i].SetFree? || s.workers[i].UnlockFree?)
    requires Alive(s, s.workers[i].t)
    ensures WorkTask(s, i) == Worked(s, i)
  {
    assert s.tasks[s.workers[i].t := s.tasks[s.workers[i].t]] == s.tasks;
  }

  lemma DestroyWorked(s: State, i: nat)
    requires i < |s.workers| && (s.workers[i].FreeCheck? || s.workers[i].FreeTask?)
    requires Alive(s, s.workers[i].t)
    ensures WorkTask(s, i) == Worked(s, i)
  {
    assert s.tasks[s.workers[i].t := s.tasks[s.workers[i].t]] == s.tasks;
  }

  lemma FinishWorked(s: State, i: nat)
    requires i < |s.workers| && (s.workers[i].SetFinished? || s.workers[i].Broadcast? || s.workers[i].UnlockFinished?)
    requires Alive(s, s.workers[i].t)
    ensures WorkTask(s, i) == Worked(s, i)
  {
    assert s.tasks[s.workers[i].t := s.tasks[s.workers[i].t]] == s.tasks;
  }

  lemma WorkIsWorked(s: State, i: nat)
    requires i < |s.workers| && Holds(s.workers[i]) && !s.workers[i].Exec? && Alive(s, s.workers[i].t)
    ensures WorkTask(s, i) == Worked(s, i)
  {
    hide WorkTask, Worked;
    var w := s.workers[i];
    if w.SetRunning? || w.Inc? { StartWorked(s, i); }
    else if w.LockTask? || w.CheckDetached? { LockWorked(s, i); }
    else if w.SetFree? || w.UnlockFree? { FreeWorked(s, i); }
    else if w.FreeCheck? || w.FreeTask? { DestroyWorked(s, i); }
    else { FinishWorked(s, i); }
  }

  lemma RankFalls(s: State, i: nat)
    requires i < |s.workers| && Holds(s.workers[i]) && !s.workers[i].Exec? && Alive(s, s.workers[i].t)
    ensures i < |WorkTask(s, i).workers| && Rank(WorkTask(s, i).workers[i]) < Rank(s.workers[i]) && !Doomed(WorkTask(s, i).workers[i])
  {
    WorkIsWorked(s, i);
    hide WorkTask, TaskAfter;
  }

  // ---------------------------------------------------------------- workers that will not look at the queue again

  /** On the way from an empty queue to sleep, asleep, or ended. */
  predicate Doomed(w: Worker) { w.IdleLock? || w.IdleCheck? || w.IdleWait? || w.Asleep? || w.Exited? }

  ghost predicate Awake(s: State) { exists i :: 0 <= i < |s.workers| && !Doomed(s.workers[i]) }

  predicate Pushing(c: Client) { c.PushCheck? || c.PushStatus? || c.PushQueue? || c.PushSpawn? }

  /** No push, and no wake-up that no broadcast caused. */
  predicate Quiet(e: Event) { !e.SpuriousWake? && !(e.Start? && e.call.Push?) }

  /** While the queue is not empty, who is awake stays so, whatever happens. */
  lemma StaysAwake(s: State, e: Event)
    requires Inv(s) && Goes(s, e) && Awake(s) && s.queue != []
    ensures Awake(Step(s, e))
  {
    var i :| 0 <= i < |s.workers| && !Doomed(s.workers[i]);
    if OfWorker(e) {
      WorkerMoves(s, e);
    } else {
      OtherWorkersAwake(s, e, i);
    }
    hide Inv, Step;
    assert !Doomed(Step(s, e).workers[i]);
  }

  lemma OtherWorkersAwake(s: State, e: Event, i: nat)
    requires Inv(s) && Goes(s, e) && !OfWorker(e) && i < |s.workers| && !Doomed(s.workers[i])
    ensures i < |Step(s, e).workers| && !Doomed(Step(s, e).workers[i])
  {
    hide Inv;
    if e.ClientStep? { ClientWorkers(s); }
  }

  /** What a step of the client does to the workers. */
  lemma ClientWorkers(s: State)
    requires Inv(s) && Goes(s, ClientStep)
    ensures var s' := StepClient(s);
            s'.workers == if s.client.PushQueue? || s.client.PoolBroadcast? then WakeAll(s.workers)
                          else if s.client.PushSpawn? && s.size > s.threads && s.threads < s.maxThreads then s.workers + [Pop]
                          else s.workers
    ensures !s.client.PushQueue? ==> StepClient(s).queue == s.queue
  {
    if OnTask(s.client) {
      InvAtClient(s);
      AliveClient(s);
      SizeOk(s);
    }
    assert s.size > 0 ==> Alive(s, s.tail) by { assert QueueOk(s); }
    hide Inv, AtClient, WakeAll, StepPush, StepJoin, StepDetach, StepPool;
    if Pushing(s.client) { PushWorkers(s); }
    else if Joining(s.client) { JoinWorkers(s); }
    else if OnTask(s.client) { DetachWorkers(s); }
    else { PoolWorkers(s); }
  }

  lemma PushWorkers(s: State)
    requires Pushing(s.client) && Alive(s, s.client.t) && (s.client.PushQueue? && s.size > 0 ==> Alive(s, s.tail))
    ensures StepPush(s).workers ==
            if s.client.PushQueue? then WakeAll(s.workers)
            else if s.client.PushSpawn? && s.size > s.threads && s.threads < s.maxThreads then s.workers + [Pop]
            else s.workers
    ensures !s.client.PushQueue? ==> StepPush(s).queue == s.queue
  {
    hide WakeAll;
  }

  lemma JoinWorkers(s: State)
    requires Joining(s.client)
    ensures StepJoin(s).workers == s.workers && StepJoin(s).queue == s.queue
  {
  }

  lemma DetachWorkers(s: State)
    requires OnTask(s.client)
    ensures StepDetach(s).workers == s.workers && StepDetach(s).queue == s.queue
  {
  }

  lemma PoolWorkers(s: State)
    ensures StepPool(s).workers == if s.client.PoolBroadcast? then WakeAll(s.workers) else s.workers
    ensures StepPool(s).queue == s.queue
  {
    hide WakeAll;
  }

  /** When nobody is awake, a queue that is not empty stays as it is, and nobody wakes. */
  lemma StaysDoomed(s: State, e: Event)
    requires Inv(s) && Goes(s, e) && !Awake(s) && s.queue != [] && !Pushing(s.client) && Quiet(e)
    ensures var s' := Step(s, e); !Awake(s') && s'.queue == s.queue && !Pushing(s'.client)
  {
    assert !s.client.PoolBroadcast?;
    if OfWorker(e) {
      WorkerMoves(s, e);
      assert Doomed(s.workers[e.i]);
      hide Inv;
      WorkerOrClient(s, e);
    } else if e.ClientStep? {
      ClientWorkers(s);
      NotYetPushing(s);
    }
  }

  lemma NotYetPushing(s: State)
    requires Enabled(s, ClientStep) && !Pushing(s.client)
    ensures !Pushing(StepClient(s).client)
  {
    hide StepJoin, StepDetach, StepPool, StepPush;
    if Joining(s.client) { JoinNotPushing(s); }
    else if OnTask(s.client) { DetachNotPushing(s); }
    else { PoolNotPushing(s); }
  }

  lemma JoinNotPushing(s: State)
    requires Joining(s.client)
    ensures !Pushing(StepJoin(s).client)
  {
  }

  lemma DetachNotPushing(s: State)
    requires OnTask(s.client) && !Pushing(s.client)
    ensures !Pushing(StepDetach(s).client)
  {
  }

  lemma PoolNotPushing(s: State)
    requires !Pushing(s.client)
    ensures !Pushing(StepPool(s).client)
  {
  }

  // ---------------------------------------------------------------- runs

  ghost predicate QuietRun(s: State, events: seq<Event>) { IsRun(s, events) && forall k :: 0 <= k < |events| ==> Quiet(events[k]) }

  ghost predicate WorkerRun(s: State, events: seq<Event>) { IsRun(s, events) && forall k :: 0 <= k < |events| ==> OfWorker(events[k]) }

  /** No worker can take a step. */
  ghost predicate Exhausted(s: State) { forall e: Event :: OfWorker(e) ==> !Enabled(s, e) }

  /** Missed: no run without another push and without a wake-up out of the blue takes anything from the queue. */
  lemma {:induction false} NothingTaken(s: State, events: seq<Event>)
    requires Inv(s) && !Awake(s) && s.queue != [] && !Pushing(s.client) && QuietRun(s, events)
    ensures Run(s, events).queue == s.queue && !Awake(Run(s, events))
    decreases |events|
  {
    hide Inv, Awake, Goes;
    if events != [] {
      assert Quiet(events[0]);
      GoesFacts(s, events[0]);
      StaysDoomed(s, events[0]);
      StepInv(s, events[0]);
      NothingTaken(Step(s, events[0]), events[1..]);
    }
  }

  lemma GoesFacts(s: State, e: Event)
    requires Goes(s, e)
    ensures Enabled(s, e) && Allowed(s, e) && !Hazard(s, e)
  {
  }

  /** A worker that neither sleeps nor has ended can take a step, or the one that has the queue's lock can. */
  lemma SomebodyCan(s: State, i: nat) returns (e: Event)
    requires Inv(s) && !InTaskClient(s.client) && i < |s.workers| && !s.workers[i].Asleep? && !s.workers[i].Exited?
    ensures OfWorker(e) && Goes(s, e) && (Holds(s.workers[i]) ==> e.i == i)
  {
    var w := s.workers[i];
    assert WorkerOk(s, i) && QueueOk(s);
    if Holds(w) {
      var m := s.tasks[w.t].mutex;
      assert TaskOk(s, w.t);
      assert m.ByWorker? && m.worker < |s.workers| ==> WorkerOk(s, m.worker);
      e := if w.Exec? then Execute(i, 0) else Work(i);
    } else if s.lock.ByWorker? {
      e := Work(s.lock.worker);
    } else {
      e := Work(i);
    }
  }

  /** Every step of a worker is one less to take. */
  lemma StepsFall(s: State, e: Event)
    requires Inv(s) && Enabled(s, e) && OfWorker(e)
    ensures StepsLeft(Step(s, e)) < StepsLeft(s)
  {
    hide Inv;
    WorkerMoves(s, e);
    RanksSet(s.workers, e.i, Step(s, e).workers[e.i]);
  }

  /**
   Workers left to themselves: their run is bounded, and when none of them can go on the
   queue is empty if one was awake, and untouched if not.
   */
  lemma {:induction false} LeftAlone(s: State, events: seq<Event>)
    requires Inv(s) && s.client.Idle? && WorkerRun(s, events)
    ensures |events| <= StepsLeft(s) && Run(s, events).client.Idle?
    ensures Exhausted(Run(s, events)) ==> Run(s, events).queue == if Awake(s) then [] else s.queue
    decreases |events|
  {
    hide Inv, Goes, StepsLeft;
    if events == [] {
      if Awake(s) && Exhausted(s) { AwakeCan(s); }
    } else {
      assert OfWorker(events[0]);
      GoesFacts(s, events[0]);
      StepsFall(s, events[0]);
      StepInv(s, events[0]);
      WorkerOrClient(s, events[0]);
      AloneStep(s, events[0]);
      LeftAlone(Step(s, events[0]), events[1..]);
    }
  }

  lemma AwakeCan(s: State)
    requires Inv(s) && s.client.Idle? && Awake(s)
    ensures !Exhausted(s)
  {
    var i :| 0 <= i < |s.workers| && !Doomed(s.workers[i]);
    var e := SomebodyCan(s, i);
  }

  /** One step of a worker: what will be left of the queue is still decided as before. */
  lemma AloneStep(s: State, e: Event)
    requires Inv(s) && s.client.Idle? && Goes(s, e) && OfWorker(e)
    ensures (if Awake(Step(s, e)) then [] else Step(s, e).queue) == if Awake(s) then [] else s.queue
  {
    WorkerMoves(s, e);
    if s.queue == [] {
    } else if Awake(s) {
      StaysAwake(s, e);
    } else {
      StaysDoomed(s, e);
    }
  }

  lemma {:induction false} Exhaust(s: State) returns (events: seq<Event>)
    requires Inv(s) && s.client.Idle?
    ensures WorkerRun(s, events) && Exhausted(Run(s, events))
    decreases StepsLeft(s)
  {
    hide Inv, StepsLeft;
    if Exhausted(s) {
      events := [];
    } else {
      var e := AnyStep(s);
      StepsFall(s, e);
      StepInv(s, e);
      WorkerOrClient(s, e);
      var rest := Exhaust(Step(s, e));
      events := [e] + rest;
      assert events[1..] == rest;
    }
  }

  lemma AnyStep(s: State) returns (e: Event)
    requires !Exhausted(s)
    ensures OfWorker(e) && Goes(s, e)
  {
    e :| OfWorker(e) && Enabled(s, e);
  }

  /**
   A push is missed exactly when every worker is on its way to sleep once it has
   returned: then and only then no run without another push and without a wake-up out of
   the blue takes the task from the queue.
   */
  lemma MissedExactly(s: State, t: nat)
    requires Reachable(s) && s.client.Idle? && t in s.queue
    ensures (forall events :: QuietRun(s, events) ==> t in Run(s, events).queue) <==> !Awake(s)
  {
    ReachableInv(s);
    hide Inv;
    if Awake(s) {
      var events := Exhaust(s);
      LeftAlone(s, events);
      assert QuietRun(s, events);
    } else {
      forall events | QuietRun(s, events) ensures t in Run(s, events).queue { NothingTaken(s, events); }
    }
  }

  /** After the broadcast of a push: somebody is awake unless all workers stand between their look at the queue and their wait. */
  lemma AwakeAfterBroadcast(s: State)
    requires Reachable(s) && s.client.PushQueue? && Enabled(s, ClientStep)
    ensures Awake(Step(s, ClientStep)) <==>
            exists i :: 0 <= i < |s.workers| && !s.workers[i].IdleLock? && !s.workers[i].IdleCheck? && !s.workers[i].IdleWait?
  {
    ReachableInv(s);
    ClientWorkers(s);
    assert !s.deleting;
    forall i | 0 <= i < |s.workers| ensures !s.workers[i].Exited? { assert WorkerOk(s, i); }
    hide Inv, Step;
    var s' := Step(s, ClientStep);
    forall i | 0 <= i < |s.workers|
      ensures Doomed(s'.workers[i]) <==> s.workers[i].IdleLock? || s.workers[i].IdleCheck? || s.workers[i].IdleWait? {}
  }

  /** When a push returns: a thread it has started is awake, so with more queued than threads and room for one nothing is missed. */
  lemma SpawnedIsAwake(s: State)
    requires Reachable(s) && s.client.PushSpawn? && Enabled(s, ClientStep)
    ensures Awake(Step(s, ClientStep)) <==> Awake(s) || (s.size > s.threads && s.threads < s.maxThreads)
  {
    ReachableInv(s);
    ClientWorkers(s);
    hide Inv, Step;
    var s' := Step(s, ClientStep);
    if s.size > s.threads && s.threads < s.maxThreads {
      assert !Doomed(s'.workers[|s.workers|]);
    }
  }

  // ---------------------------------------------------------------- deleting the pool

  /** Asleep, or about to be whatever happens. */
  predicate Lost(w: Worker) { w.IdleWait? || w.Asleep? }

  ghost predicate AnyLost(s: State) { exists i :: 0 <= i < |s.workers| && Lost(s.workers[i]) }

  /** thread_pool_delete waits for its workers, or has waited for all. */
  predicate Awaiting(c: Client) { c.PoolJoin? || c.PoolFree? }

  /** The steps of thread_pool_delete that are left. */
  function ClientStepsLeft(s: State): nat {
    if s.client.PoolJoin? then 2 + (if s.client.i <= s.threads then s.threads - s.client.i else 0)
    else if s.client.PoolFree? then 1
    else 0
  }

  /** What a step of the client does while it waits for its workers. */
  lemma JoinStep(s: State)
    requires Inv(s) && Awaiting(s.client) && Enabled(s, ClientStep)
    ensures var s' := StepClient(s);
            && s'.workers == s.workers && s'.queue == s.queue && ClientStepsLeft(s') < ClientStepsLeft(s)
            && (s.client.PoolFree? ==> s'.client.Idle? && s'.ret == PoolDeleted && s'.poolFreed)
            && (s.client.PoolJoin? ==> Awaiting(s'.client) && (s.client.i < s.threads ==> s.workers[s.client.i].Exited?))
  {
  }

  /** A lost worker stays lost, so that the client never gets past it. */
  lemma StaysLost(s: State, e: Event)
    requires Inv(s) && Goes(s, e) && s.client.PoolJoin? && AnyLost(s) && !e.SpuriousWake?
    ensures AnyLost(Step(s, e)) && Step(s, e).client.PoolJoin?
  {
    var j :| 0 <= j < |s.workers| && Lost(s.workers[j]);
    if OfWorker(e) {
      LostStays(s, e, j);
    } else {
      JoinStep(s);
    }
    hide Inv, Step;
    assert Lost(Step(s, e).workers[j]);
  }

  lemma LostStays(s: State, e: Event, j: nat)
    requires Inv(s) && Enabled(s, e) && OfWorker(e) && s.client.PoolJoin? && j < |s.workers| && Lost(s.workers[j])
    ensures j < |Step(s, e).workers| && Lost(Step(s, e).workers[j]) && Step(s, e).client == s.client
  {
    WorkerMoves(s, e);
    hide Inv;
    WorkerOrClient(s, e);
  }

  /** When no worker is lost none becomes so, because a worker that looks at is_deleting now ends. */
  lemma NoneGetsLost(s: State, e: Event)
    requires Inv(s) && Goes(s, e) && Awaiting(s.client) && !AnyLost(s) && (OfWorker(e) || e.ClientStep?)
    ensures !AnyLost(Step(s, e))
  {
    assert s.deleting;
    if OfWorker(e) {
      WorkerMoves(s, e);
      assert !Lost(s.workers[e.i]);
    } else {
      JoinStep(s);
    }
  }

  /** Neither the client nor a worker can take a step. */
  ghost predicate Stopped(s: State) { forall e: Event :: OfWorker(e) || e.ClientStep? ==> !Enabled(s, e) }

  ghost predicate InsideRun(s: State, events: seq<Event>) {
    IsRun(s, events) && forall k :: 0 <= k < |events| ==> OfWorker(events[k]) || events[k].ClientStep?
  }

  ghost predicate WakelessRun(s: State, events: seq<Event>) { IsRun(s, events) && forall k :: 0 <= k < |events| ==> !events[k].SpuriousWake? }

  lemma {:induction false} NeverJoined(s: State, events: seq<Event>)
    requires Inv(s) && s.client.PoolJoin? && AnyLost(s) && WakelessRun(s, events)
    ensures Run(s, events).client.PoolJoin?
    decreases |events|
  {
    hide Inv, AnyLost, Goes;
    if events != [] {
      assert !events[0].SpuriousWake?;
      GoesFacts(s, events[0]);
      StaysLost(s, events[0]);
      StepInv(s, events[0]);
      NeverJoined(Step(s, events[0]), events[1..]);
    }
  }

  lemma InsideStep(s: State, e: Event)
    requires Inv(s) && Goes(s, e) && Awaiting(s.client) && !AnyLost(s) && (OfWorker(e) || e.ClientStep?)
    ensures var s' := Step(s, e);
            && !AnyLost(s') && (Awaiting(s'.client) || (s'.client.Idle? && s'.ret == PoolDeleted && s'.poolFreed))
            && StepsLeft(s') + ClientStepsLeft(s') < StepsLeft(s) + ClientStepsLeft(s)
  {
    NoneGetsLost(s, e);
    if OfWorker(e) {
      StepsFall(s, e);
      hide Inv, AnyLost, StepsLeft;
      WorkerOrClient(s, e);
      SameThreads(s, e);
    } else {
      JoinStep(s);
    }
  }

  lemma SameThreads(s: State, e: Event)
    requires Enabled(s, e) && OfWorker(e)
    ensures Step(s, e).threads == s.threads
  {
  }

  /** When a worker is still there and none is lost, somebody can go on. */
  lemma NotStopped(s: State)
    requires Inv(s) && Awaiting(s.client) && !AnyLost(s)
    ensures !Stopped(s)
  {
    if s.client.PoolJoin? && s.client.i < s.threads && !s.workers[s.client.i].Exited? {
      assert !Lost(s.workers[s.client.i]);
      var e := SomebodyCan(s, s.client.i);
    } else {
      assert Enabled(s, ClientStep);
    }
  }

  ghost predicate Returned(s: State) { s.client.Idle? && s.ret == PoolDeleted && s.poolFreed }

  /** Once it has returned nothing goes on in the pool. */
  lemma ReturnedStops(s: State, e: Event)
    requires Inv(s) && Returned(s) && (OfWorker(e) || e.ClientStep?)
    ensures !Enabled(s, e)
  {
    assert AllExited(s, |s.workers|);
  }

  /** Without a lost worker the deletion takes a bounded number of steps, and has returned when nobody can go on. */
  lemma {:induction false} DeleteReturns(s: State, events: seq<Event>)
    requires Inv(s) && (Returned(s) || (Awaiting(s.client) && !AnyLost(s))) && InsideRun(s, events)
    ensures |events| <= StepsLeft(s) + ClientStepsLeft(s)
    ensures Stopped(Run(s, events)) ==> Returned(Run(s, events))
    decreases |events|
  {
    hide Inv, AnyLost, Goes, StepsLeft, Stopped;
    if events == [] {
      if Awaiting(s.client) { NotStopped(s); }
    } else {
      assert OfWorker(events[0]) || events[0].ClientStep?;
      GoesFacts(s, events[0]);
      if Returned(s) {
        ReturnedStops(s, events[0]);
        assert false;
      } else {
        InsideStep(s, events[0]);
        StepInv(s, events[0]);
        DeleteReturns(Step(s, events[0]), events[1..]);
      }
    }
  }

  lemma {:induction false} FinishDelete(s: State) returns (events: seq<Event>)
    requires Inv(s) && Awaiting(s.client) && !AnyLost(s)
    ensures InsideRun(s, events) && Returned(Run(s, events))
    decreases StepsLeft(s) + ClientStepsLeft(s)
  {
    hide Inv, AnyLost, StepsLeft, Returned;
    NotStopped(s);
    var e := AnyInside(s);
    InsideStep(s, e);
    StepInv(s, e);
    var rest: seq<Event> := [];
    if Awaiting(Step(s, e).client) {
      rest := FinishDelete(Step(s, e));
    } else {
      assert Returned(Step(s, e)) by { IsReturned(Step(s, e)); }
    }
    assert InsideRun(Step(s, e), rest);
    events := [e] + rest;
    assert events[1..] == rest;
    forall k | 0 <= k < |events| ensures OfWorker(events[k]) || events[k].ClientStep? {
      assert k > 0 ==> events[k] == rest[k - 1];
    }
  }

  lemma IsReturned(s: State)
    requires s.client.Idle? && s.ret == PoolDeleted && s.poolFreed
    ensures Returned(s)
  {
  }

  lemma AnyInside(s: State) returns (e: Event)
    requires !Stopped(s) && !s.client.DeleteTask?
    ensures (OfWorker(e) || e.ClientStep?) && Goes(s, e)
  {
    e :| (OfWorker(e) || e.ClientStep?) && Enabled(s, e);
  }

  /**
   thread_pool_delete hangs exactly when at its broadcast some worker stands between its
   look at is_deleting and its wait: then and only then it is still waiting after every
   run without a wake-up out of the blue.
   */
  lemma DeleteHangsExactly(s: State)
    requires Reachable(s) && s.client.PoolBroadcast? && Enabled(s, ClientStep)
    ensures var s' := Step(s, ClientStep);
            (forall events :: WakelessRun(s', events) ==> Run(s', events).client.PoolJoin?)
            <==> exists j :: 0 <= j < |s.workers| && s.workers[j].IdleWait?
  {
    var s' := Step(s, ClientStep);
    ReachableInv(s);
    StepInv(s, ClientStep);
    BroadcastWakes(s);
    hide Inv, Step, AnyLost;
    if AnyLost(s') {
      forall events | WakelessRun(s', events) ensures Run(s', events).client.PoolJoin? { NeverJoined(s', events); }
    } else {
      var events := FinishDelete(s');
      assert WakelessRun(s', events);
    }
  }

  lemma BroadcastWakes(s: State)
    requires Inv(s) && s.client.PoolBroadcast?
    ensures StepClient(s).client == PoolJoin(0)
    ensures AnyLost(StepClient(s)) <==> exists j :: 0 <= j < |s.workers| && s.workers[j].IdleWait?
  {
    ClientWorkers(s);
    hide Inv;
    var workers := WakeAll(s.workers);
    forall j | 0 <= j < |workers| ensures Lost(workers[j]) <==> s.workers[j].IdleWait? {}
  }
}
