/**
 The inductive invariant of the thread pool: it holds at the start and every step of
 every worker and of a client that keeps its side keeps it.
 */
module ThreadPoolInvariant {
  import opened ThreadPool

  // ---------------------------------------------------------------- the invariant

  /** A task: where it is, who holds its mutex, who may free it, and that each push has run once or is about to. */
  ghost predicate TaskOk(s: State, t: nat)
    requires t < |s.tasks|
  {
    var k := s.tasks[t];
    && (k.stage.Held? ==> k.stage.worker < |s.workers| && Holds(s.workers[k.stage.worker]) && s.workers[k.stage.worker].t == t)
    && (k.stage == Queued ==> t in s.queue)
    && (k.mutex.ByWorker? ==> k.mutex.worker < |s.workers| && InTask(s.workers[k.mutex.worker]) && s.workers[k.mutex.worker].t == t)
    && (k.mutex.ByClient? ==> InTaskClient(s.client) && s.client.t == t)
    && (k.stage == Dead ==> !k.mine)
    && (!k.mine && k.stage != Dead ==> k.detached)
    && (k.detached ==> (k.stage == Queued || k.stage.Held? || k.stage == Dead) && (!k.mine || s.client == DetachUnlock(t)))
    && StatusOk(s, t) && CountOk(s, t)
  }

  ghost predicate StatusOk(s: State, t: nat)
    requires t < |s.tasks|
  {
    var k := s.tasks[t];
    match k.stage
    case Own => if s.client == PushQueue(t) then k.status == Pushed else k.status == Free || k.status == Finished
    case Queued => k.status == Pushed
    case Held(i) => i < |s.workers| && k.status == StatusAt(s.workers[i])
    case Done => k.status == Finished
    case Dead => true
  }

  ghost predicate CountOk(s: State, t: nat)
    requires t < |s.tasks|
  {
    var k := s.tasks[t];
    && (k.results != [] ==> k.result == k.results[|k.results| - 1])
    && (k.status == Finished ==> k.results != [])
    && (k.stage.Held? && k.stage.worker < |s.workers| && !BeforeRun(s.workers[k.stage.worker]) ==> k.results != [])
    && k.pushes == |k.results| + (if k.stage == Queued then 1
                                  else if k.stage.Held? && k.stage.worker < |s.workers| && BeforeRun(s.workers[k.stage.worker]) then 1
                                  else 0)
  }

  ghost predicate WorkerOk(s: State, i: nat)
    requires i < |s.workers|
  {
    var w := s.workers[i];
    && (Holds(w) ==> w.t < |s.tasks| && s.tasks[w.t].stage == Held(i))
    && (InTask(w) ==> s.tasks[w.t].mutex == ByWorker(i))
    && (w.SetFree? || w.UnlockFree? || w.FreeCheck? || w.FreeTask? ==> s.tasks[w.t].detached && !s.tasks[w.t].mine)
    && (w.FreeCheck? || w.FreeTask? ==> s.tasks[w.t].mutex == Nobody)
    && (w.SetFinished? || w.Broadcast? || w.UnlockFinished? ==> !s.tasks[w.t].detached)
    && (InQueueLock(w) ==> s.lock == ByWorker(i))
    && (w.Exited? ==> s.deleting)
  }

  /** The linked queue, whose `next` fields mean nothing beyond `size` tasks, is the sequence `queue`. */
  ghost predicate Linked(tasks: seq<Task>, queue: seq<nat>, head: nat, tail: nat, size: nat) {
    && |queue| == size <= TPOOL_MAX_TASKS
    && (size > 0 ==> head == queue[0] && tail == queue[size - 1])
    && (forall j :: 0 <= j < |queue| ==> queue[j] < |tasks| && tasks[queue[j]].stage == Queued)
    && (forall j :: 0 <= j < |queue| - 1 ==> tasks[queue[j]].next == queue[j + 1])
    && (forall j, k :: 0 <= j < k < |queue| ==> queue[j] != queue[k])
  }

  ghost predicate QueueOk(s: State) {
    && Linked(s.tasks, s.queue, s.head, s.tail, s.size)
    && (s.lock.ByWorker? ==> s.lock.worker < |s.workers| && InQueueLock(s.workers[s.lock.worker]))
    && !s.lock.ByClient?
  }

  ghost predicate AllExited(s: State, n: nat) { forall i :: 0 <= i < n && i < |s.workers| ==> s.workers[i].Exited? }

  /** What the client knows at each point of its calls. */
  ghost predicate ClientOk(s: State) {
    var c := s.client;
    && (OnTask(c) ==> c.t < |s.tasks| && s.tasks[c.t].mine && ClientTaskOk(s))
    && (InTaskClient(c) ==> s.tasks[c.t].mutex == ByClient)
    && (c.PushStatus? || c.PushQueue? ==> s.size < TPOOL_MAX_TASKS)
    && (c.PushCheck? || c.PushStatus? || c.PushQueue? || c.PushSpawn? ==> !s.deleting)
    && (DeletingPool(c) ==> s.queue == [])
    && (DeletingPool(c) || c.PoolCheckSize? ==> !s.poolFreed)
    && (s.deleting ==> s.queue == [] && (s.poolFreed || c.PoolBroadcast? || c.PoolJoin? || c.PoolFree?))
    && (c.PoolJoin? ==> c.i <= |s.workers| && AllExited(s, c.i))
    && (c.PoolFree? || s.poolFreed ==> AllExited(s, |s.workers|) && s.deleting)
    && (c.PoolBroadcast? || c.PoolJoin? ==> s.deleting)
  }

  ghost predicate ClientTaskOk(s: State)
    requires OnTask(s.client) && s.client.t < |s.tasks|
  {
    var c := s.client;
    var k := s.tasks[c.t];
    && (c.PushCheck? || c.PushStatus? || c.PushQueue? ==> k.stage == Own)
    && (c.JoinLock? || c.JoinTest? || c.DetachLock? || c.DetachTest? ==> k.stage == Own ==> k.status == Finished)
    && (c.JoinAsleep? ==>
          && (k.stage == Queued || k.stage.Held?)
          && (k.status == Finished ==> k.stage.Held? && k.stage.worker < |s.workers| && s.workers[k.stage.worker].Broadcast?))
    && (c.JoinRelock? && !c.late ==> k.status == Finished && (k.stage == Done || k.stage.Held?))
    && ((c.JoinUnlock? && !c.late) || c.JoinStore? || c.DetachSetFree? ==> k.status == Finished && (k.stage == Done || k.stage == Own))
    && (c.JoinRead? ==> k.status == Finished && k.stage == Own)
    && (c.DetachSet? || c.DetachUnlock? ==> k.stage == Queued || k.stage.Held?)
    && (c.DetachUnlock? <==> k.detached)
    && (c.DetachUnlockFree? ==> k.stage == Own)
    && (c.DeleteTask? ==> k.status == Free || k.status == Finished)
  }

  function CountRunning(workers: seq<Worker>): nat {
    if workers == [] then 0
    else CountRunning(workers[..|workers| - 1]) + (if Counted(workers[|workers| - 1]) then 1 else 0)
  }

  ghost predicate Inv(s: State) {
    && !s.fault
    && s.threads == |s.workers| <= s.maxThreads <= TPOOL_MAX_THREADS
    && s.running == CountRunning(s.workers)
    && QueueOk(s)
    && ClientOk(s)
    && (forall t {:trigger TaskOk(s, t)} :: 0 <= t < |s.tasks| ==> TaskOk(s, t))
    && (forall i {:trigger WorkerOk(s, i)} :: 0 <= i < |s.workers| ==> WorkerOk(s, i))
  }

  // ---------------------------------------------------------------- counting

  lemma {:induction false} CountSet(workers: seq<Worker>, i: nat, w: Worker)
    requires i < |workers|
    ensures CountRunning(workers[i := w]) ==
            CountRunning(workers) - (if Counted(workers[i]) then 1 else 0) + (if Counted(w) then 1 else 0)
  {
    var n := |workers| - 1;
    if i < n {
      CountSet(workers[..n], i, w);
      assert workers[i := w][..n] == workers[..n][i := w];
    } else {
      assert workers[i := w][..n] == workers[..n];
    }
  }

  lemma {:induction false} CountWake(workers: seq<Worker>)
    ensures CountRunning(WakeAll(workers)) == CountRunning(workers)
  {
    if workers != [] {
      CountWake(workers[..|workers| - 1]);
      assert WakeAll(workers)[..|workers| - 1] == WakeAll(workers[..|workers| - 1]);
    }
  }

  lemma CountNew(workers: seq<Worker>)
    ensures CountRunning(workers + [Pop]) == CountRunning(workers)
  {
    assert (workers + [Pop])[..|workers|] == workers;
  }

  // ---------------------------------------------------------------- the worker's steps

  /** Only task t, worker i (where `i < |s.workers|`), the running count and the client differ. */
  ghost predicate OnlyAt(s: State, s': State, i: nat, t: nat) {
    && |s'.tasks| == |s.tasks| && |s'.workers| == |s.workers|
    && (forall u :: 0 <= u < |s.tasks| && u != t ==> s'.tasks[u] == s.tasks[u])
    && (forall j :: 0 <= j < |s.workers| && j != i ==> s'.workers[j] == s.workers[j])
    && s'.head == s.head && s'.tail == s.tail && s'.size == s.size && s'.lock == s.lock && s'.queue == s.queue
    && s'.deleting == s.deleting && s'.threads == s.threads && s'.maxThreads == s.maxThreads
    && s'.poolFreed == s.poolFreed && s'.fault == s.fault
  }

  /** The client does not move, or is woken from its wait for task t. */
  ghost predicate ClientWaits(s: State, s': State, t: nat) {
    s'.client == s.client || (s.client.JoinAsleep? && s.client.t == t && s'.client == JoinRelock(t, false))
  }

  ghost predicate RunningMoves(s: State, s': State, i: nat)
    requires i < |s.workers| && i < |s'.workers|
  {
    s'.running == s.running - (if Counted(s.workers[i]) then 1 else 0) + (if Counted(s'.workers[i]) then 1 else 0)
  }

  lemma CountAt(s: State, s': State, i: nat, t: nat)
    requires i < |s.workers| && OnlyAt(s, s', i, t) && RunningMoves(s, s', i) && s.running == CountRunning(s.workers)
    ensures s'.running == CountRunning(s'.workers)
  {
    CountSet(s.workers, i, s'.workers[i]);
    assert s'.workers == s.workers[i := s'.workers[i]];
  }

  lemma OtherTasks(s: State, s': State, i: nat, t: nat, u: nat)
    requires i < |s.workers| && OnlyAt(s, s', i, t) && ClientWaits(s, s', t)
    requires u < |s.tasks| && u != t && TaskOk(s, u) && Holds(s.workers[i]) && s.workers[i].t == t
    ensures TaskOk(s', u)
  {
  }

  lemma OtherWorkers(s: State, s': State, i: nat, t: nat, j: nat)
    requires i < |s.workers| && t < |s.tasks| && OnlyAt(s, s', i, t)
    requires j < |s.workers| && j != i && WorkerOk(s, j) && s.tasks[t].stage == Held(i)
    ensures WorkerOk(s', j)
  {
  }

  lemma SameQueue(s: State, s': State, i: nat, t: nat)
    requires i < |s.workers| && t < |s.tasks| && OnlyAt(s, s', i, t)
    requires QueueOk(s) && s.tasks[t].stage == Held(i) && !InQueueLock(s.workers[i])
    ensures QueueOk(s')
  {
  }

  lemma SameClient(s: State, s': State, i: nat, t: nat)
    requires i < |s.workers| && t < |s.tasks| && OnlyAt(s, s', i, t) && ClientWaits(s, s', t)
    requires ClientOk(s) && Holds(s.workers[i]) && s.workers[i].t == t
    requires OnTask(s.client) ==> TaskOk(s, s.client.t)
    requires OnTask(s.client) && s.client.t == t ==> ClientAt(s', t)
    ensures ClientOk(s')
  {
    assert OnTask(s.client) && s.client.t != t ==> ClientTaskOk(s');
    assert !s.workers[i].Exited?;
    assert forall n :: AllExited(s, n) ==> AllExited(s', n);
  }

  /** What ClientOk says about the task t the client is on. */
  ghost predicate ClientAt(s: State, t: nat)
    requires OnTask(s.client) && s.client.t == t < |s.tasks|
  {
    s.tasks[t].mine && (InTaskClient(s.client) ==> s.tasks[t].mutex == ByClient) && ClientTaskOk(s)
  }

  /** After a step of worker i on task t the invariant follows from what it says about the two. */
  lemma WorkerStepInv(s: State, s': State, i: nat, t: nat)
    requires Inv(s) && i < |s.workers| && Holds(s.workers[i]) && s.workers[i].t == t && t < |s.tasks|
    requires OnlyAt(s, s', i, t) && ClientWaits(s, s', t) && RunningMoves(s, s', i)
    requires s.tasks[t].stage == Held(i) && TaskOk(s', t) && WorkerOk(s', i)
    requires OnTask(s.client) && s.client.t == t ==> ClientAt(s', t)
    ensures Inv(s')
  {
    hide TaskOk, WorkerOk, ClientOk, QueueOk, ClientAt;
    if OnTask(s.client) { ClientTask(s); assert TaskOk(s, s.client.t); }
    SameQueue(s, s', i, t);
    SameClient(s, s', i, t);
    CountAt(s, s', i, t);
    forall u | 0 <= u < |s.tasks| ensures TaskOk(s', u) { assert TaskOk(s, u); if u != t { OtherTasks(s, s', i, t, u); } }
    forall j | 0 <= j < |s.workers| ensures WorkerOk(s', j) { assert WorkerOk(s, j); if j != i { OtherWorkers(s, s', i, t, j); } }
  }

  lemma ClientTask(s: State)
    requires ClientOk(s) && OnTask(s.client)
    ensures s.client.t < |s.tasks| && ClientAt(s, s.client.t)
  {
  }

  /** Worker i, its task, and the client when it is on that task. */
  ghost predicate AtWorker(s: State, i: nat)
    requires i < |s.workers| && Holds(s.workers[i])
  {
    var t := s.workers[i].t;
    && !s.fault && t < |s.tasks| && TaskOk(s, t) && WorkerOk(s, i)
    && (OnTask(s.client) && s.client.t == t ==> ClientAt(s, t))
  }

  /** The conclusion of one step of worker i on its task. */
  ghost predicate GoodWork(s: State, s': State, i: nat)
    requires i < |s.workers| && Holds(s.workers[i]) && s.workers[i].t < |s.tasks|
  {
    var t := s.workers[i].t;
    && OnlyAt(s, s', i, t) && ClientWaits(s, s', t) && RunningMoves(s, s', i)
    && s.tasks[t].stage == Held(i) && TaskOk(s', t) && WorkerOk(s', i)
    && (OnTask(s.client) && s.client.t == t ==> ClientAt(s', t))
  }

  /** What a step of worker i may still wait for. */
  ghost predicate CanWork(s: State, i: nat) {
    && i < |s.workers| && Holds(s.workers[i]) && !s.workers[i].Exec? && AtWorker(s, i)
    && (s.workers[i].LockTask? ==> s.tasks[s.workers[i].t].mutex == Nobody)
  }

  /** The steps up to the test of is_detached. */
  ghost predicate Early(w: Worker) { w.SetRunning? || w.Inc? || w.LockTask? || w.CheckDetached? }

  ghost predicate WorkMoves(s: State, i: nat)
    requires CanWork(s, i)
  {
    var t, s' := s.workers[i].t, WorkTask(s, i);
    s.tasks[t].stage == Held(i) && OnlyAt(s, s', i, t) && ClientWaits(s, s', t) && RunningMoves(s, s', i)
  }

  ghost predicate WorkKeeps(s: State, i: nat)
    requires CanWork(s, i)
  {
    var t, s' := s.workers[i].t, WorkTask(s, i);
    && i < |s'.workers| && t < |s'.tasks| && TaskOk(s', t) && WorkerOk(s', i)
    && (OnTask(s.client) && s.client.t == t ==> OnTask(s'.client) && s'.client.t == t && ClientAt(s', t))
  }

  lemma EarlyMoves(s: State, i: nat)
    requires CanWork(s, i) && Early(s.workers[i])
    ensures WorkMoves(s, i)
  {
    hide ClientAt, StatusOk, CountOk;
  }

  lemma LateMoves(s: State, i: nat)
    requires CanWork(s, i) && !Early(s.workers[i])
    ensures WorkMoves(s, i)
  {
    hide ClientAt, CountOk;
  }

  lemma StartKeeps(s: State, i: nat)
    requires CanWork(s, i) && (s.workers[i].SetRunning? || s.workers[i].Inc?)
    ensures WorkKeeps(s, i)
  {
  }

  lemma LockKeeps(s: State, i: nat)
    requires CanWork(s, i) && (s.workers[i].LockTask? || s.workers[i].CheckDetached?)
    ensures WorkKeeps(s, i)
  {
  }

  lemma FreeKeeps(s: State, i: nat)
    requires CanWork(s, i)
    requires s.workers[i].SetFree? || s.workers[i].UnlockFree? || s.workers[i].FreeCheck? || s.workers[i].FreeTask?
    ensures WorkKeeps(s, i)
  {
    hide ClientTaskOk;
  }

  lemma SetFinishedKeeps(s: State, i: nat)
    requires CanWork(s, i) && s.workers[i].SetFinished?
    ensures WorkKeeps(s, i)
  {
  }

  lemma FinishKeeps(s: State, i: nat)
    requires CanWork(s, i) && (s.workers[i].Broadcast? || s.workers[i].UnlockFinished?)
    ensures WorkKeeps(s, i)
  {
    hide WorkKeeps, WorkTask;
    if s.workers[i].Broadcast? { BroadcastKeeps(s, i); } else { UnlockKeeps(s, i); }
  }

  lemma BroadcastKeeps(s: State, i: nat)
    requires CanWork(s, i) && s.workers[i].Broadcast?
    ensures WorkKeeps(s, i)
  {
  }

  lemma UnlockKeeps(s: State, i: nat)
    requires CanWork(s, i) && s.workers[i].UnlockFinished?
    ensures WorkKeeps(s, i)
  {
  }

  lemma RunWork(s: State, i: nat, value: int)
    requires i < |s.workers| && s.workers[i].Exec? && AtWorker(s, i)
    ensures GoodWork(s, RunTask(s, i, value), i)
  {
  }

  lemma InvAtWorker(s: State, i: nat)
    requires Inv(s) && i < |s.workers| && Holds(s.workers[i])
    ensures AtWorker(s, i)
  {
    assert WorkerOk(s, i);
    assert TaskOk(s, s.workers[i].t);
  }

  lemma WorkTaskInv(s: State, i: nat)
    requires Inv(s) && Enabled(s, Work(i)) && Holds(s.workers[i])
    ensures Inv(WorkTask(s, i))
  {
    hide Inv, WorkTask, OnlyAt, TaskOk, WorkerOk, ClientAt;
    InvAtWorker(s, i);
    AliveAt(s, i);
    var w := s.workers[i];
    if Early(w) {
      EarlyMoves(s, i);
      if w.SetRunning? || w.Inc? { StartKeeps(s, i); } else { LockKeeps(s, i); }
    } else {
      LateMoves(s, i);
      if w.SetFinished? { SetFinishedKeeps(s, i); }
      else if w.Broadcast? || w.UnlockFinished? { FinishKeeps(s, i); }
      else { FreeKeeps(s, i); }
    }
    WorkerStepInv(s, WorkTask(s, i), i, w.t);
  }

  /** What any step of a worker with a task changes outside that task. */
  lemma WorkElsewhere(s: State, i: nat)
    requires Inv(s) && Enabled(s, Work(i)) && Holds(s.workers[i])
    ensures OnlyAt(s, WorkTask(s, i), i, s.workers[i].t)
    ensures s.workers[i].t < |s.tasks| && s.tasks[s.workers[i].t].stage == Held(i)
  {
    hide Inv, WorkTask, OnlyAt, TaskOk, WorkerOk, ClientAt;
    InvAtWorker(s, i);
    AliveAt(s, i);
    if Early(s.workers[i]) { EarlyMoves(s, i); } else { LateMoves(s, i); }
  }

  lemma AliveAt(s: State, i: nat)
    requires i < |s.workers| && Holds(s.workers[i]) && AtWorker(s, i)
    ensures Alive(s, s.workers[i].t)
  {
  }

  lemma RunTaskInv(s: State, i: nat, value: int)
    requires Inv(s) && Enabled(s, Execute(i, value))
    ensures Inv(RunTask(s, i, value))
  {
    hide Inv, RunTask, OnlyAt, TaskOk, WorkerOk, ClientAt;
    InvAtWorker(s, i);
    RunWork(s, i, value);
    WorkerStepInv(s, RunTask(s, i, value), i, s.workers[i].t);
  }

  /** A worker that has no task: it goes for the queue lock, to sleep, to the next task, or ends. */
  lemma WorkIdleInv(s: State, i: nat)
    requires Inv(s) && Enabled(s, Work(i)) && !s.workers[i].Pop? && !Holds(s.workers[i])
    ensures Inv(WorkIdle(s, i))
  {
    hide QueueOk, ClientOk, TaskOk, WorkerOk, OnlyAt, RunningMoves, CountRunning;
    var s' := WorkIdle(s, i);
    assert WorkerOk(s, i);
    if OnTask(s.client) { ClientTask(s); assert TaskOk(s, s.client.t); }
    IdleCount(s, s', i);
    IdleQueue(s, s', i);
    IdleClient(s, s', i);
    forall t | 0 <= t < |s.tasks| ensures TaskOk(s', t) { assert TaskOk(s, t); IdleTask(s, s', i, t); }
    forall j | 0 <= j < |s.workers| ensures WorkerOk(s', j) { assert WorkerOk(s, j); IdleWorker(s, s', i, j); }
  }

  lemma IdleCount(s: State, s': State, i: nat)
    requires i < |s.workers| && !s.workers[i].Pop? && !Holds(s.workers[i]) && s' == WorkIdle(s, i)
    requires s.running == CountRunning(s.workers)
    ensures s'.running == CountRunning(s'.workers) && s'.threads == s.threads && |s'.workers| == |s.workers| && s'.maxThreads == s.maxThreads
    ensures s'.fault == s.fault && s'.tasks == s.tasks
  {
    CountSet(s.workers, i, s'.workers[i]);
  }

  lemma IdleQueue(s: State, s': State, i: nat)
    requires QueueOk(s) && i < |s.workers| && !s.workers[i].Pop? && !Holds(s.workers[i]) && s' == WorkIdle(s, i)
    requires s.workers[i].IdleLock? ==> s.lock == Nobody
    requires WorkerOk(s, i)
    ensures QueueOk(s')
  {
  }

  lemma IdleClient(s: State, s': State, i: nat)
    requires ClientOk(s) && i < |s.workers| && !s.workers[i].Pop? && !Holds(s.workers[i]) && s' == WorkIdle(s, i)
    requires OnTask(s.client) ==> TaskOk(s, s.client.t)
    ensures ClientOk(s')
  {
    assert s.workers[i].Exited? ==> s' == s;
    assert forall n :: AllExited(s, n) ==> AllExited(s', n);
  }

  lemma IdleTask(s: State, s': State, i: nat, t: nat)
    requires i < |s.workers| && !s.workers[i].Pop? && !Holds(s.workers[i]) && s' == WorkIdle(s, i)
    requires t < |s.tasks| && TaskOk(s, t)
    ensures TaskOk(s', t)
  {
    assert s'.tasks == s.tasks && s'.client == s.client && s'.queue == s.queue;
  }

  lemma IdleWorker(s: State, s': State, i: nat, j: nat)
    requires i < |s.workers| && !s.workers[i].Pop? && !Holds(s.workers[i]) && s' == WorkIdle(s, i)
    requires s.workers[i].IdleLock? ==> s.lock == Nobody
    requires j < |s.workers| && WorkerOk(s, j) && WorkerOk(s, i)
    ensures WorkerOk(s', j)
  {
    hide TaskOk, ClientOk, QueueOk;
  }

  lemma SpuriousWakeInv(s: State, i: nat)
    requires Inv(s) && i < |s.workers| && s.workers[i].Asleep?
    ensures Inv(SetWorker(s, i, Woken))
  {
    Resting(s, i, Woken);
  }

  /** Worker i, which has no task and no lock, moves and stays so. */
  lemma Resting(s: State, i: nat, w: Worker)
    requires Inv(s) && i < |s.workers| && (s.workers[i].Pop? || s.workers[i].Asleep?) && (w.IdleLock? || w.Woken?)
    ensures Inv(SetWorker(s, i, w))
  {
    hide QueueOk, ClientOk, TaskOk, WorkerOk;
    var s' := SetWorker(s, i, w);
    CountAt(s, s', i, |s.tasks|);
    assert WorkerOk(s, i);
    if OnTask(s.client) { ClientTask(s); assert TaskOk(s, s.client.t); }
    RestingRest(s, i, w);
    forall t | 0 <= t < |s.tasks| ensures TaskOk(s', t) { assert TaskOk(s, t); RestingTask(s, i, w, t); }
    forall j | 0 <= j < |s.workers| ensures WorkerOk(s', j) { assert WorkerOk(s, j); RestingWorker(s, i, w, j); }
  }

  lemma RestingRest(s: State, i: nat, w: Worker)
    requires i < |s.workers| && (s.workers[i].Pop? || s.workers[i].Asleep?) && (w.IdleLock? || w.Woken?)
    requires QueueOk(s) && ClientOk(s) && (OnTask(s.client) ==> TaskOk(s, s.client.t))
    ensures QueueOk(SetWorker(s, i, w)) && ClientOk(SetWorker(s, i, w))
  {
    var s' := SetWorker(s, i, w);
    assert forall n :: AllExited(s, n) ==> AllExited(s', n);
  }

  lemma RestingTask(s: State, i: nat, w: Worker, t: nat)
    requires i < |s.workers| && (s.workers[i].Pop? || s.workers[i].Asleep?) && (w.IdleLock? || w.Woken?)
    requires t < |s.tasks| && TaskOk(s, t)
    ensures TaskOk(SetWorker(s, i, w), t)
  {
  }

  lemma RestingWorker(s: State, i: nat, w: Worker, j: nat)
    requires i < |s.workers| && (s.workers[i].Pop? || s.workers[i].Asleep?) && (w.IdleLock? || w.Woken?)
    requires j < |s.workers| && WorkerOk(s, j)
    ensures WorkerOk(SetWorker(s, i, w), j)
  {
  }

  // ---------------------------------------------------------------- taking a task from the queue

  lemma PopFrontInv(s: State, i: nat)
    requires Inv(s) && Enabled(s, Work(i)) && s.workers[i].Pop?
    ensures Inv(PopFront(s, i))
  {
    var s' := PopFront(s, i);
    if OnTask(s.client) { assert TaskOk(s, s.client.t); }
    if s.size == 0 {
      NothingToPop(s, s', i);
    } else {
      assert TaskOk(s, s.head);
      PopQueue(s, s', i);
      PopClient(s, s', i);
      CountSet(s.workers, i, s'.workers[i]);
      hide ClientOk, QueueOk, PopFront, Inv;
      forall t | 0 <= t < |s.tasks| ensures TaskOk(s', t) { PopTask(s, s', i, t); }
      forall j | 0 <= j < |s.workers| ensures WorkerOk(s', j) { PopWorker(s, s', i, j); }
    }
  }

  lemma NothingToPop(s: State, s': State, i: nat)
    requires Inv(s) && i < |s.workers| && s.workers[i].Pop? && s' == SetWorker(s, i, IdleLock)
    ensures Inv(s')
  {
    Resting(s, i, IdleLock);
  }

  ghost predicate Poppable(s: State, s': State, i: nat) {
    i < |s.workers| && s.workers[i].Pop? && QueueOk(s) && s.size > 0 && Alive(s, s.head) && s' == PopFront(s, i)
  }

  lemma PopQueue(s: State, s': State, i: nat)
    requires Poppable(s, s', i)
    ensures QueueOk(s') && !(s'.fault && !s.fault)
  {
  }

  lemma PopClient(s: State, s': State, i: nat)
    requires Poppable(s, s', i) && ClientOk(s) && TaskOk(s, s.head)
    requires OnTask(s.client) ==> TaskOk(s, s.client.t)
    ensures ClientOk(s')
  {
    assert OnTask(s.client) && s.client.t != s.head ==> s'.tasks[s.client.t] == s.tasks[s.client.t];
  }

  lemma PopTask(s: State, s': State, i: nat, t: nat)
    requires Poppable(s, s', i) && t < |s.tasks| && TaskOk(s, t) && TaskOk(s, s.head)
    ensures TaskOk(s', t)
  {
    if t != s.head && t in s.queue {
      var j :| 0 <= j < |s.queue| && s.queue[j] == t;
      assert s'.queue[j - 1] == t;
    }
  }

  lemma PopWorker(s: State, s': State, i: nat, j: nat)
    requires Poppable(s, s', i) && j < |s.workers| && WorkerOk(s, j) && TaskOk(s, s.head)
    ensures WorkerOk(s', j)
  {
  }

  // ---------------------------------------------------------------- the client on one task

  /** A step of the client on its task t and nothing else, ending the call or staying on the task. */
  ghost predicate OnlyClient(s: State, s': State, t: nat)
    requires t < |s.tasks|
  {
    && OnlyAt(s, s', |s.workers|, t) && s'.running == s.running
    && (s'.client.Idle? || (OnTask(s'.client) && s'.client.t == t))
    && (s'.tasks[t].stage == Queued <==> s.tasks[t].stage == Queued) && s'.tasks[t].next == s.tasks[t].next
  }

  ghost predicate PushFacts(s: State) {
    && (s.client.PushStatus? || s.client.PushQueue? ==> s.size < TPOOL_MAX_TASKS)
    && (s.client.PushCheck? || s.client.PushStatus? || s.client.PushQueue? || s.client.PushSpawn? ==> !s.deleting)
  }

  lemma ClientStepQueue(s: State, s': State, t: nat)
    requires QueueOk(s) && t < |s.tasks| && OnlyClient(s, s', t)
    ensures QueueOk(s')
  {
  }

  lemma ClientStepClient(s: State, s': State, t: nat)
    requires ClientOk(s) && OnTask(s.client) && s.client.t == t < |s.tasks| && OnlyClient(s, s', t) && PushFacts(s')
    requires OnTask(s'.client) ==> ClientAt(s', t)
    ensures ClientOk(s')
  {
    assert forall n :: AllExited(s, n) ==> AllExited(s', n);
  }

  lemma ClientStepInv(s: State, s': State, t: nat)
    requires Inv(s) && OnTask(s.client) && s.client.t == t < |s.tasks| && OnlyClient(s, s', t) && PushFacts(s')
    requires TaskOk(s', t) && (OnTask(s'.client) ==> ClientAt(s', t))
    requires s.tasks[t].stage.Held? && s.tasks[t].stage.worker < |s.workers| ==> WorkerOk(s', s.tasks[t].stage.worker)
    ensures Inv(s')
  {
    assert s'.workers == s.workers;
    ClientStepQueue(s, s', t);
    ClientStepClient(s, s', t);
    hide QueueOk, ClientOk, ClientAt;
    forall u | 0 <= u < |s.tasks| ensures TaskOk(s', u) { assert TaskOk(s, u); }
    forall j | 0 <= j < |s.workers| ensures WorkerOk(s', j) { assert WorkerOk(s, j); }
  }

  /** The client on its task, and the worker that holds the task, if one does. */
  ghost predicate AtClient(s: State) {
    && OnTask(s.client) && s.client.t < |s.tasks| && !s.fault && PushFacts(s)
    && ClientAt(s, s.client.t) && TaskOk(s, s.client.t)
    && (s.tasks[s.client.t].stage.Held? ==> WorkerOk(s, s.tasks[s.client.t].stage.worker))
  }

  ghost predicate GoodClient(s: State, s': State)
    requires OnTask(s.client) && s.client.t < |s.tasks|
  {
    var t := s.client.t;
    && OnlyClient(s, s', t) && PushFacts(s') && TaskOk(s', t) && (OnTask(s'.client) ==> ClientAt(s', t))
    && (s.tasks[t].stage.Held? && s.tasks[t].stage.worker < |s.workers| ==> WorkerOk(s', s.tasks[t].stage.worker))
  }

  lemma InvAtClient(s: State)
    requires Inv(s) && OnTask(s.client)
    ensures AtClient(s)
  {
    var t := s.client.t;
    assert TaskOk(s, t);
    if s.tasks[t].stage.Held? { assert WorkerOk(s, s.tasks[t].stage.worker); }
  }

  lemma StartPush(s: State)
    requires AtClient(s) && (s.client.PushCheck? || s.client.PushStatus?)
    requires s.size <= TPOOL_MAX_TASKS
    ensures GoodClient(s, StepPush(s))
  {
  }

  ghost predicate Joining(c: Client) {
    c.JoinCheck? || c.JoinLock? || c.JoinTest? || c.JoinRelock? || c.JoinUnlock? || c.JoinStore? || c.JoinRead?
  }

  ghost predicate CanStep(s: State) {
    && AtClient(s) && !s.client.PushQueue? && !s.client.PushSpawn?
    && (s.client.JoinLock? || s.client.JoinRelock? || s.client.DetachLock? || s.client.DeleteTask? ==> s.tasks[s.client.t].mutex == Nobody)
  }

  lemma JoinMoves(s: State)
    requires CanStep(s) && Joining(s.client)
    ensures OnlyClient(s, StepJoin(s), s.client.t) && PushFacts(StepJoin(s))
  {
    hide StepJoin, CanStep, OnlyClient, PushFacts;
    var c := s.client;
    if c.JoinCheck? || c.JoinTest? { JoinLooks(s); }
    else if c.JoinLock? || c.JoinRelock? || c.JoinUnlock? { JoinLocks(s); }
    else { JoinStores(s); }
  }

  lemma JoinLooks(s: State)
    requires CanStep(s) && (s.client.JoinCheck? || s.client.JoinTest?)
    ensures OnlyClient(s, StepJoin(s), s.client.t) && PushFacts(StepJoin(s))
  {
    hide CountOk, StatusOk, ClientTaskOk;
  }

  lemma JoinLocks(s: State)
    requires CanStep(s) && (s.client.JoinLock? || s.client.JoinRelock? || s.client.JoinUnlock?)
    ensures OnlyClient(s, StepJoin(s), s.client.t) && PushFacts(StepJoin(s))
  {
    hide CountOk, StatusOk, ClientTaskOk;
  }

  lemma JoinStores(s: State)
    requires CanStep(s) && (s.client.JoinStore? || s.client.JoinRead?)
    ensures OnlyClient(s, StepJoin(s), s.client.t) && PushFacts(StepJoin(s))
  {
    hide CountOk, StatusOk;
  }

  lemma JoinTaskOk(s: State)
    requires CanStep(s) && (s.client.JoinCheck? || s.client.JoinLock? || s.client.JoinTest? || s.client.JoinRelock?)
    ensures s.client.t < |StepJoin(s).tasks| && TaskOk(StepJoin(s), s.client.t)
  {
    hide StepJoin, TaskOk;
    if s.client.JoinCheck? || s.client.JoinLock? { JoinBeginsOk(s); } else { JoinWaitsOk(s); }
  }

  lemma JoinBeginsOk(s: State)
    requires CanStep(s) && (s.client.JoinCheck? || s.client.JoinLock?)
    ensures s.client.t < |StepJoin(s).tasks| && TaskOk(StepJoin(s), s.client.t)
  {
  }

  lemma JoinWaitsOk(s: State)
    requires CanStep(s) && (s.client.JoinTest? || s.client.JoinRelock?)
    ensures s.client.t < |StepJoin(s).tasks| && TaskOk(StepJoin(s), s.client.t)
  {
  }

  lemma JoinedTaskOk(s: State)
    requires CanStep(s) && (s.client.JoinUnlock? || s.client.JoinStore? || s.client.JoinRead?)
    ensures s.client.t < |StepJoin(s).tasks| && TaskOk(StepJoin(s), s.client.t)
  {
  }

  lemma JoinClientAt(s: State)
    requires CanStep(s) && Joining(s.client)
    ensures var s', t := StepJoin(s), s.client.t; OnTask(s'.client) ==> s'.client.t == t < |s'.tasks| && ClientAt(s', t)
  {
    hide CountOk;
  }

  lemma JoinWorkerOk(s: State)
    requires CanStep(s) && Joining(s.client) && s.tasks[s.client.t].stage.Held?
    ensures var s', i := StepJoin(s), s.tasks[s.client.t].stage.worker; i < |s'.workers| && WorkerOk(s', i)
  {
    hide CountOk;
  }

  lemma DetachMoves(s: State)
    requires CanStep(s) && !Joining(s.client) && !s.client.PushCheck? && !s.client.PushStatus?
    ensures OnlyClient(s, StepDetach(s), s.client.t) && PushFacts(StepDetach(s))
  {
    hide StepDetach, OnlyClient, PushFacts, ClientAt, TaskOk;
    var c := s.client;
    if c.DetachSetFree? || c.DetachUnlockFree? { FreeMoves(s); }
    else if Deleting(c) { DeleteMoves(s); }
    else { MarkMoves(s); }
  }

  lemma FreeMoves(s: State)
    requires CanStep(s) && (s.client.DetachSetFree? || s.client.DetachUnlockFree?)
    ensures OnlyClient(s, StepDetach(s), s.client.t) && PushFacts(StepDetach(s))
  {
    hide CountOk;
  }

  lemma DeleteMoves(s: State)
    requires CanStep(s) && Deleting(s.client)
    ensures OnlyClient(s, StepDetach(s), s.client.t) && PushFacts(StepDetach(s))
  {
    hide CountOk;
  }

  lemma MarkMoves(s: State)
    requires CanStep(s) && Detaching(s.client) && !s.client.DetachSetFree? && !s.client.DetachUnlockFree?
    ensures OnlyClient(s, StepDetach(s), s.client.t) && PushFacts(StepDetach(s))
  {
    hide CountOk, StatusOk;
  }

  ghost predicate Deleting(c: Client) { c.DeleteCheckFree? || c.DeleteCheckFinished? || c.DeleteTask? }

  ghost predicate Detaching(c: Client) {
    OnTask(c) && !Joining(c) && !Deleting(c) && !c.PushCheck? && !c.PushStatus? && !c.PushQueue? && !c.PushSpawn?
  }

  lemma DetachTaskOk(s: State)
    requires CanStep(s) && Detaching(s.client) && (s.client.DetachCheck? || s.client.DetachLock? || s.client.DetachTest?)
    ensures s.client.t < |StepDetach(s).tasks| && TaskOk(StepDetach(s), s.client.t)
  {
  }

  lemma DetachedTaskOk(s: State)
    requires CanStep(s) && (s.client.DetachSet? || s.client.DetachUnlock?)
    ensures s.client.t < |StepDetach(s).tasks| && TaskOk(StepDetach(s), s.client.t)
  {
  }

  lemma FreedTaskOk(s: State)
    requires CanStep(s) && (s.client.DetachSetFree? || s.client.DetachUnlockFree?)
    ensures s.client.t < |StepDetach(s).tasks| && TaskOk(StepDetach(s), s.client.t)
  {
  }

  lemma DeleteTaskOk(s: State)
    requires CanStep(s) && Deleting(s.client)
    ensures s.client.t < |StepDetach(s).tasks| && TaskOk(StepDetach(s), s.client.t)
  {
  }

  lemma DetachClientAt(s: State)
    requires CanStep(s) && !Joining(s.client) && !s.client.PushCheck? && !s.client.PushStatus?
    ensures var s', t := StepDetach(s), s.client.t; OnTask(s'.client) ==> s'.client.t == t < |s'.tasks| && ClientAt(s', t)
  {
    hide CountOk;
  }

  lemma DetachWorkerOk(s: State)
    requires CanStep(s) && !Joining(s.client) && !s.client.PushCheck? && !s.client.PushStatus? && s.tasks[s.client.t].stage.Held?
    ensures var s', i := StepDetach(s), s.tasks[s.client.t].stage.worker; i < |s'.workers| && WorkerOk(s', i)
  {
    hide CountOk;
  }

  lemma ClientTaskInv(s: State)
    requires Inv(s) && Enabled(s, ClientStep) && OnTask(s.client) && !s.client.PushQueue? && !s.client.PushSpawn?
    requires !Hazard(s, ClientStep)
    ensures Inv(StepClient(s))
  {
    hide Inv, StepPush, StepJoin, StepDetach, OnlyClient, TaskOk, WorkerOk, ClientAt, PushFacts;
    InvAtClient(s);
    AliveClient(s);
    SizeOk(s);
    var c := s.client;
    if c.PushCheck? || c.PushStatus? {
      StartPush(s);
    } else if Joining(c) {
      JoinMoves(s);
      if c.JoinUnlock? || c.JoinStore? || c.JoinRead? { JoinedTaskOk(s); } else { JoinTaskOk(s); }
      JoinClientAt(s);
      if s.tasks[c.t].stage.Held? { JoinWorkerOk(s); }
    } else {
      DetachMoves(s);
      if Deleting(c) { DeleteTaskOk(s); }
      else if c.DetachCheck? || c.DetachLock? || c.DetachTest? { DetachTaskOk(s); }
      else if c.DetachSetFree? || c.DetachUnlockFree? { FreedTaskOk(s); }
      else { DetachedTaskOk(s); }
      DetachClientAt(s);
      if s.tasks[c.t].stage.Held? { DetachWorkerOk(s); }
    }
    ClientStepInv(s, StepClient(s), c.t);
  }

  /** What any step of the client on a task changes outside that task. */
  lemma ClientElsewhere(s: State)
    requires Inv(s) && Enabled(s, ClientStep) && OnTask(s.client) && !s.client.PushQueue? && !s.client.PushSpawn?
    requires !Hazard(s, ClientStep)
    ensures OnlyAt(s, StepClient(s), |s.workers|, s.client.t) && s.client.t < |s.tasks| && s.tasks[s.client.t].mine
  {
    hide Inv, StepPush, StepJoin, StepDetach, OnlyAt, TaskOk, WorkerOk, PushFacts, ClientTaskOk;
    InvAtClient(s);
    AliveClient(s);
    SizeOk(s);
    var c := s.client;
    if c.PushCheck? || c.PushStatus? { StartPush(s); }
    else if Joining(c) { JoinMoves(s); }
    else { DetachMoves(s); }
  }

  lemma SizeOk(s: State)
    requires Inv(s)
    ensures s.size <= TPOOL_MAX_TASKS
  {
  }

  lemma AliveClient(s: State)
    requires AtClient(s)
    ensures Alive(s, s.client.t)
  {
  }

  // ---------------------------------------------------------------- putting a task into the queue

  ghost predicate Pushable(s: State, s': State) {
    && s.client.PushQueue? && QueueOk(s) && s.lock == Nobody && s.size < TPOOL_MAX_TASKS
    && s.client.t < |s.tasks| && s.tasks[s.client.t].stage == Own && s' == PushBack(s, s.client.t)
  }

  lemma TailAlive(s: State, s': State)
    requires Pushable(s, s')
    ensures Alive(s, s.client.t) && s.tasks[s.client.t].stage == Own && s' == PushBack(s, s.client.t)
    ensures s.size > 0 ==> Alive(s, s.tail) && 0 <= s.size - 1 < |s.queue| && s.tail == s.queue[s.size - 1] && s.tail != s.client.t
  {
    hide TaskOk, WorkerOk, PushBack;
  }

  lemma PushBackFacts(s: State, s': State)
    requires Pushable(s, s')
    ensures s'.queue == s.queue + [s.client.t] && s'.size == s.size + 1 && s'.tail == s.client.t && s'.client == PushSpawn(s.client.t)
    ensures s'.head == if s.size == 0 then s.client.t else s.head
    ensures |s'.tasks| == |s.tasks| && s'.workers == WakeAll(s.workers)
    ensures s'.lock == s.lock && s'.running == s.running && s'.threads == s.threads && s'.maxThreads == s.maxThreads
    ensures s'.deleting == s.deleting && s'.poolFreed == s.poolFreed && s'.fault == s.fault
    ensures s.size > 0 ==> s.tail == s.queue[s.size - 1] && s.tail != s.client.t && s.tail < |s.tasks| && s'.tasks[s.tail].next == s.client.t
    ensures forall u :: 0 <= u < |s.tasks| && u != s.client.t ==> s'.tasks[u].(next := 0) == s.tasks[u].(next := 0)
    ensures forall u :: 0 <= u < |s.tasks| && u != s.client.t && !(s.size > 0 && u == s.tail) ==> s'.tasks[u] == s.tasks[u]
    ensures var k := s.tasks[s.client.t]; s'.tasks[s.client.t] == k.(stage := Queued, pushes := k.pushes + 1)
  {
    hide TaskOk, WorkerOk, WakeAll, QueueOk, Linked, Pushable;
    TailAlive(s, s');
  }

  /** A broadcast moves no worker that has a task or the lock. */
  lemma WakeKeeps(workers: seq<Worker>)
    ensures |WakeAll(workers)| == |workers|
    ensures forall i :: 0 <= i < |workers| ==>
              WakeAll(workers)[i] == workers[i] || (workers[i].Asleep? && WakeAll(workers)[i] == Woken)
  {
  }

  lemma PushBackQueue(s: State, s': State)
    requires Pushable(s, s')
    ensures QueueOk(s')
  {
    hide PushBack;
    PushBackFacts(s, s');
    var n := |s.queue|;
    forall j | 0 <= j < n ensures s'.queue[j] == s.queue[j] && s.queue[j] != s.client.t {}
    forall j | 0 <= j < |s'.queue| - 1 ensures s'.tasks[s'.queue[j]].next == s'.queue[j + 1] {
      if j < n - 1 { assert s.queue[j] != s.queue[n - 1]; }
    }
  }

  lemma PushBackClient(s: State, s': State)
    requires Pushable(s, s') && ClientOk(s) && TaskOk(s, s.client.t)
    ensures ClientOk(s')
  {
    hide PushBack, QueueOk;
    PushBackFacts(s, s');
    assert !s.deleting;
  }

  lemma PushBackTask(s: State, s': State, u: nat)
    requires Pushable(s, s') && u < |s.tasks| && TaskOk(s, u)
    ensures TaskOk(s', u)
  {
    hide PushBack, QueueOk, WakeAll;
    PushBackFacts(s, s');
    WakeKeeps(s.workers);
    if u == s.client.t { assert s'.queue[|s.queue|] == u; }
    if u in s.queue { var j :| 0 <= j < |s.queue| && s.queue[j] == u; assert s'.queue[j] == u; }
  }

  lemma PushBackWorker(s: State, s': State, j: nat)
    requires Pushable(s, s') && j < |s.workers| && WorkerOk(s, j) && (Holds(s.workers[j]) ==> s.workers[j].t != s.client.t)
    ensures WorkerOk(s', j)
  {
    hide PushBack, QueueOk, WakeAll;
    PushBackFacts(s, s');
    WakeKeeps(s.workers);
  }

  lemma PushBackInv(s: State)
    requires Inv(s) && Enabled(s, ClientStep) && s.client.PushQueue?
    ensures Inv(StepPush(s))
  {
    var s' := PushBack(s, s.client.t);
    assert TaskOk(s, s.client.t);
    PushBackFacts(s, s');
    PushBackQueue(s, s');
    PushBackClient(s, s');
    CountWake(s.workers);
    hide PushBack, QueueOk, ClientOk;
    forall u | 0 <= u < |s'.tasks| ensures TaskOk(s', u) { assert TaskOk(s, u); PushBackTask(s, s', u); }
    forall j | 0 <= j < |s'.workers| ensures WorkerOk(s', j) { assert WorkerOk(s, j); PushBackWorker(s, s', j); }
  }

  lemma PushSpawnInv(s: State)
    requires Inv(s) && s.client.PushSpawn?
    ensures Inv(StepPush(s))
  {
    hide QueueOk, ClientOk, TaskOk, WorkerOk;
    var s' := StepPush(s);
    CountNew(s.workers);
    assert TaskOk(s, s.client.t) by { ClientTask(s); }
    SpawnRest(s);
    forall u | 0 <= u < |s'.tasks| ensures TaskOk(s', u) { assert TaskOk(s, u); SpawnTask(s, u); }
    forall j | 0 <= j < |s'.workers| ensures WorkerOk(s', j) { if j < |s.workers| { assert WorkerOk(s, j); } SpawnWorker(s, j); }
  }

  lemma SpawnRest(s: State)
    requires s.client.PushSpawn? && QueueOk(s) && ClientOk(s) && TaskOk(s, s.client.t)
    ensures QueueOk(StepPush(s)) && ClientOk(StepPush(s))
  {
    assert !s.deleting;
  }

  lemma SpawnTask(s: State, u: nat)
    requires s.client.PushSpawn? && u < |s.tasks| && TaskOk(s, u)
    ensures TaskOk(StepPush(s), u)
  {
  }

  lemma SpawnWorker(s: State, j: nat)
    requires s.client.PushSpawn? && j < |StepPush(s).workers| && (j < |s.workers| ==> WorkerOk(s, j))
    ensures WorkerOk(StepPush(s), j)
  {
  }

  // ---------------------------------------------------------------- the client elsewhere

  /** Only the client moves, and is on no task, or only begins to be on one. */
  lemma OnlyClientMoves(s: State, s': State)
    requires Inv(s) && s' == s.(client := s'.client, ret := s'.ret, deleting := s'.deleting, poolFreed := s'.poolFreed)
    requires s.deleting ==> s'.deleting
    requires !s.client.PushQueue? && !s.client.DetachUnlock? && !InTaskClient(s.client)
    requires !s'.client.PushQueue? && !s'.client.DetachUnlock? && !InTaskClient(s'.client)
    requires ClientOk(s')
    ensures Inv(s')
  {
    assert QueueOk(s');
    hide QueueOk, ClientOk;
    forall u | 0 <= u < |s.tasks| ensures TaskOk(s', u) { assert TaskOk(s, u); }
    forall j | 0 <= j < |s.workers| ensures WorkerOk(s', j) { assert WorkerOk(s, j); }
  }

  lemma PoolInv(s: State)
    requires Inv(s) && Enabled(s, ClientStep) && !OnTask(s.client) && !s.client.Idle?
    ensures Inv(StepPool(s))
  {
    var s' := StepPool(s);
    if s.client.PoolBroadcast? {
      PoolBroadcastInv(s);
    } else {
      assert s.client.PoolJoin? && s.client.i < |s.workers| && AllExited(s, s.client.i) ==> AllExited(s, s.client.i + 1);
      assert s.client.PoolJoin? && AllExited(s, |s.workers|) ==> AllExited(s', |s.workers|);
      assert s.client.PoolFree? ==> AllExited(s', |s.workers|);
      OnlyClientMoves(s, s');
    }
  }

  lemma PoolBroadcastInv(s: State)
    requires Inv(s) && s.client.PoolBroadcast?
    ensures Inv(StepPool(s))
  {
    var s' := StepPool(s);
    CountWake(s.workers);
    assert QueueOk(s');
    assert ClientOk(s');
    hide QueueOk, ClientOk;
    forall u | 0 <= u < |s.tasks| ensures TaskOk(s', u) { assert TaskOk(s, u); }
    forall j | 0 <= j < |s.workers| ensures WorkerOk(s', j) { assert WorkerOk(s, j); }
  }

  lemma StartClient(s: State, call: Call)
    requires Inv(s) && s.client.Idle? && Allowed(s, Start(call))
    ensures ClientOk(StartCall(s, call))
  {
    hide QueueOk, WorkerOk, CountOk;
    var s' := StartCall(s, call);
    if OnTask(s'.client) { assert TaskOk(s, s'.client.t); }
    assert forall n :: AllExited(s, n) ==> AllExited(s', n);
  }

  lemma StartInv(s: State, call: Call)
    requires Inv(s) && s.client.Idle? && Allowed(s, Start(call))
    ensures Inv(StartCall(s, call))
  {
    var s' := StartCall(s, call);
    StartClient(s, call);
    hide ClientOk, TaskOk, WorkerOk, QueueOk;
    OnlyClientMoves(s, s');
  }

  lemma ExpireInv(s: State)
    requires Inv(s) && s.client.JoinAsleep?
    ensures Inv(s.(client := JoinRelock(s.client.t, true)))
  {
    var s' := s.(client := JoinRelock(s.client.t, true));
    assert TaskOk(s, s.client.t);
    assert forall n :: AllExited(s, n) ==> AllExited(s', n);
    OnlyClientMoves(s, s');
  }

  lemma NewTaskParts(s: State, garbage: nat)
    requires QueueOk(s) && ClientOk(s) && s.client.Idle?
    ensures QueueOk(Step(s, NewTask(garbage))) && ClientOk(Step(s, NewTask(garbage)))
  {
    assert forall n :: AllExited(s, n) ==> AllExited(Step(s, NewTask(garbage)), n);
  }

  lemma NewTaskInv(s: State, garbage: nat)
    requires Inv(s) && s.client.Idle?
    ensures Inv(Step(s, NewTask(garbage)))
  {
    var s' := Step(s, NewTask(garbage));
    NewTaskParts(s, garbage);
    hide QueueOk, ClientOk;
    forall u | 0 <= u < |s'.tasks| ensures TaskOk(s', u) { if u < |s.tasks| { assert TaskOk(s, u); } }
    forall j | 0 <= j < |s.workers| ensures WorkerOk(s', j) { assert WorkerOk(s, j); }
  }

  lemma SpuriousJoinInv(s: State)
    requires Inv(s) && s.client.JoinAsleep? && Allowed(s, SpuriousJoin)
    ensures Inv(s.(client := JoinRelock(s.client.t, false)))
  {
    var s' := s.(client := JoinRelock(s.client.t, false));
    assert TaskOk(s, s.client.t);
    assert forall n :: AllExited(s, n) ==> AllExited(s', n);
    OnlyClientMoves(s, s');
  }

  /** Every step keeps the invariant, but for the deletion of a task whose mutex is held. */
  lemma StepInv(s: State, e: Event)
    requires Inv(s) && Enabled(s, e) && Allowed(s, e) && !Hazard(s, e)
    ensures Inv(Step(s, e))
  {
    match e
    case Work(i) =>
      PoolAlive(s, i);
      if s.workers[i].Pop? { PopFrontInv(s, i); }
      else if Holds(s.workers[i]) { WorkTaskInv(s, i); }
      else { WorkIdleInv(s, i); }
    case Execute(i, value) => RunTaskInv(s, i, value);
    case ClientStep =>
      if s.client.PushQueue? { PushBackInv(s); }
      else if s.client.PushSpawn? { PushSpawnInv(s); }
      else if OnTask(s.client) { ClientTaskInv(s); }
      else { PoolInv(s); }
    case NewTask(garbage) => NewTaskInv(s, garbage);
    case Start(call) => StartInv(s, call);
    case Expire => ExpireInv(s);
    case SpuriousJoin => SpuriousJoinInv(s);
    case SpuriousWake(i) => SpuriousWakeInv(s, i);
  }

  /** A worker that is still there has its pool. */
  lemma PoolAlive(s: State, i: nat)
    requires Inv(s) && i < |s.workers| && !s.workers[i].Exited?
    ensures !s.poolFreed
  {
  }
}
