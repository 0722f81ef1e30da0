/**
 The thread pool as a transition system: N workers and one client, one step per atomic
 operation or critical section, in any order. Sequential consistency; a wait on a
 task's condition variable ends by a broadcast, a timeout or, when the task has
 finished, by itself (`ThreadPoolLimits` shows what other wake-ups would do).

 Some fields do not exist in the program and record what happened. Of a task: `stage`
 says where it is, `mine` whether the client may still name it, `pushes` how often it
 was pushed, `results` what its runs returned. Of the state: `queue` is the queue as a
 sequence, `ret` what the client's last call returned, `poolFreed` that the pool has
 been deleted, and `fault` is set by any access to freed memory.
 */
module ThreadPool {

  const TPOOL_MAX_THREADS := 20
  const TPOOL_MAX_TASKS := 100000

  datatype Status = Free | Pushed | Finished | Running

  datatype Owner = Nobody | ByClient | ByWorker(worker: nat)

  datatype Stage =
    | Own              // with the client, outside the pool
    | Queued
    | Held(worker: nat)
    | Done             // executed, waiting to be joined
    | Dead             // freed

  datatype Task = Task(status: Status, next: nat, result: int, detached: bool, mutex: Owner,
                       stage: Stage, mine: bool, pushes: nat, results: seq<int>)

  /** Where a worker is in worker_function; `t` is its task. */
  datatype Worker =
    | Pop
    | IdleLock | IdleCheck | IdleWait | Asleep | Woken | Exited
    | SetRunning(t: nat) | Inc(t: nat) | Exec(t: nat) | LockTask(t: nat) | CheckDetached(t: nat)
    | SetFree(t: nat) | UnlockFree(t: nat) | FreeCheck(t: nat) | FreeTask(t: nat)
    | SetFinished(t: nat) | Broadcast(t: nat) | UnlockFinished(t: nat)
    | Dec

  /** Where the client is in the call it is making. */
  datatype Client =
    | Idle
    | PushCheck(t: nat) | PushStatus(t: nat) | PushQueue(t: nat) | PushSpawn(t: nat)
    | JoinCheck(t: nat, timed: bool) | JoinLock(t: nat, timed: bool) | JoinTest(t: nat, timed: bool) | JoinAsleep(t: nat, timed: bool)
    | JoinRelock(t: nat, late: bool) | JoinUnlock(t: nat, late: bool) | JoinStore(t: nat) | JoinRead(t: nat)
    | DetachCheck(t: nat) | DetachLock(t: nat) | DetachTest(t: nat) | DetachSetFree(t: nat) | DetachUnlockFree(t: nat)
    | DetachSet(t: nat) | DetachUnlock(t: nat)
    | DeleteCheckFree(t: nat) | DeleteCheckFinished(t: nat) | DeleteTask(t: nat)
    | PoolCheckSize | PoolCheckRunning | PoolSetDeleting | PoolBroadcast | PoolJoin(i: nat) | PoolFree

  datatype Ret =
    | NoRet | PushOk(t: nat) | TooManyTasks | JoinOk(t: nat, result: int) | TaskNotPushed | Timeout
    | DetachOk | DeleteOk | TaskInPool | HasTasks | PoolDeleted

  datatype State = State(tasks: seq<Task>, head: nat, tail: nat, size: nat, lock: Owner, queue: seq<nat>,
                         deleting: bool, running: int, threads: nat, maxThreads: nat, workers: seq<Worker>,
                         client: Client, ret: Ret, poolFreed: bool, fault: bool)

  datatype Call = Push(t: nat) | Join(t: nat) | TimedJoin(t: nat) | Detach(t: nat) | Delete(t: nat) | DeletePool

  datatype Event =
    | NewTask(garbage: nat)     // thread_task_new; malloc leaves `next` as it was
    | Start(call: Call)
    | ClientStep
    | Expire                    // the timeout of a timed join
    | SpuriousJoin
    | Work(i: nat)
    | Execute(i: nat, value: int)
    | SpuriousWake(i: nat)      // of a worker waiting for a task

  /** thread_pool_new: None for an invalid number of threads. */
  function New(maxThreads: int): seq<State> {
    if maxThreads <= 0 || maxThreads > TPOOL_MAX_THREADS then []
    else [State([], 0, 0, 0, Nobody, [], false, 0, 0, maxThreads, [], Idle, NoRet, false, false)]
  }

  // ---------------------------------------------------------------- pieces of steps

  predicate Alive(s: State, t: nat) { t < |s.tasks| && s.tasks[t].stage != Dead }

  /** The task a worker works on. */
  predicate Holds(w: Worker) { !(w.Pop? || w.IdleLock? || w.IdleCheck? || w.IdleWait? || w.Asleep? || w.Woken? || w.Exited? || w.Dec?) }

  /** A worker inside the critical section of its task. */
  predicate InTask(w: Worker) {
    w.CheckDetached? || w.SetFree? || w.UnlockFree? || w.SetFinished? || w.Broadcast? || w.UnlockFinished?
  }

  predicate InQueueLock(w: Worker) { w.IdleCheck? || w.IdleWait? }

  /** Between the increment and the decrement of running_tasks_count. */
  predicate Counted(w: Worker) { (Holds(w) && !w.SetRunning? && !w.Inc?) || w.Dec? }

  /** The worker has yet to call the task's function. */
  predicate BeforeRun(w: Worker) { w.SetRunning? || w.Inc? || w.Exec? }

  function StatusAt(w: Worker): Status {
    if w.SetRunning? then Pushed
    else if w.UnlockFree? || w.FreeCheck? || w.FreeTask? then Free
    else if w.Broadcast? || w.UnlockFinished? then Finished
    else Running
  }

  predicate OnTask(c: Client) {
    !(c.Idle? || c.PoolCheckSize? || c.PoolCheckRunning? || c.PoolSetDeleting? || c.PoolBroadcast? || c.PoolJoin? || c.PoolFree?)
  }

  predicate InTaskClient(c: Client) {
    c.JoinTest? || c.JoinUnlock? || c.DetachTest? || c.DetachSetFree? || c.DetachUnlockFree? || c.DetachSet? || c.DetachUnlock?
  }

  predicate DeletingPool(c: Client) {
    c.PoolCheckRunning? || c.PoolSetDeleting? || c.PoolBroadcast? || c.PoolJoin? || c.PoolFree?
  }

  function Fault(s: State): State { s.(fault := true) }

  function SetTask(s: State, t: nat, task: Task): State
    requires t < |s.tasks|
  {
    s.(tasks := s.tasks[t := task])
  }

  function SetWorker(s: State, i: nat, w: Worker): State
    requires i < |s.workers|
  {
    s.(workers := s.workers[i := w])
  }

  /** pthread_cond_broadcast on the queue: every worker asleep is woken. */
  function WakeAll(workers: seq<Worker>): (r: seq<Worker>)
    ensures |r| == |workers|
  {
    seq(|workers|, i requires 0 <= i < |workers| => if workers[i].Asleep? then Woken else workers[i])
  }

  /** The client's call has returned. */
  function Return(s: State, ret: Ret): State { s.(client := Idle, ret := ret) }

  /** pthread_mutex_destroy, pthread_cond_destroy and free. */
  function Destroy(s: State, t: nat): State
    requires t < |s.tasks|
  {
    if s.tasks[t].mutex != Nobody then Fault(s)
    else SetTask(s, t, s.tasks[t].(stage := Dead))
  }

  // ---------------------------------------------------------------- the worker

  /** The critical section of queue_pop_front. */
  function PopFront(s: State, i: nat): State
    requires i < |s.workers|
  {
    if s.size == 0 then SetWorker(s, i, IdleLock)
    else if !Alive(s, s.head) || s.queue == [] then Fault(s)
    else
      var t := s.head;
      SetWorker(SetTask(s, t, s.tasks[t].(stage := Held(i))), i, SetRunning(t)).
        (head := s.tasks[t].next, size := s.size - 1, queue := s.queue[1..])
  }

  function WorkIdle(s: State, i: nat): State
    requires i < |s.workers|
  {
    match s.workers[i]
    case IdleLock => SetWorker(s, i, IdleCheck).(lock := ByWorker(i))
    case IdleCheck => if s.deleting then SetWorker(s, i, Exited).(lock := Nobody) else SetWorker(s, i, IdleWait)
    case IdleWait => SetWorker(s, i, Asleep).(lock := Nobody)
    case Woken => SetWorker(s, i, Pop)
    case Dec => SetWorker(s, i, Pop).(running := s.running - 1)
    case _ => s
  }

  function WorkTask(s: State, i: nat): State
    requires i < |s.workers| && Holds(s.workers[i])
  {
    var t := s.workers[i].t;
    if !Alive(s, t) then Fault(s)
    else
      var task := s.tasks[t];
      match s.workers[i]
      case SetRunning(_) => SetWorker(SetTask(s, t, task.(status := Running)), i, Inc(t))
      case Inc(_) => SetWorker(s, i, Exec(t)).(running := s.running + 1)
      case LockTask(_) => SetWorker(SetTask(s, t, task.(mutex := ByWorker(i))), i, CheckDetached(t))
      case CheckDetached(_) => SetWorker(s, i, if task.detached then SetFree(t) else SetFinished(t))
      case SetFree(_) => SetWorker(SetTask(s, t, task.(status := Free)), i, UnlockFree(t))
      case UnlockFree(_) => SetWorker(SetTask(s, t, task.(mutex := Nobody)), i, FreeCheck(t))
      case FreeCheck(_) => SetWorker(s, i, if task.status == Free || task.status == Finished then FreeTask(t) else Dec)
      case FreeTask(_) => SetWorker(Destroy(s, t), i, Dec)
      case SetFinished(_) => SetWorker(SetTask(s, t, task.(status := Finished)), i, Broadcast(t))
      case Broadcast(_) =>
        SetWorker(if s.client.JoinAsleep? && s.client.t == t then s.(client := JoinRelock(t, false)) else s, i, UnlockFinished(t))
      case UnlockFinished(_) => SetWorker(SetTask(s, t, task.(mutex := Nobody, stage := Done)), i, Dec)
      case _ => s
  }

  /** The task's function returns `value`. */
  function RunTask(s: State, i: nat, value: int): State
    requires i < |s.workers| && s.workers[i].Exec?
  {
    var t := s.workers[i].t;
    if !Alive(s, t) then Fault(s)
    else SetWorker(SetTask(s, t, s.tasks[t].(result := value, results := s.tasks[t].results + [value])), i, LockTask(t))
  }

  // ---------------------------------------------------------------- the client

  function StartCall(s: State, call: Call): State {
    s.(client :=
         match call
         case Push(t) => PushCheck(t)
         case Join(t) => JoinCheck(t, false)
         case TimedJoin(t) => JoinCheck(t, true)
         case Detach(t) => DetachCheck(t)
         case Delete(t) => DeleteCheckFree(t)
         case DeletePool => PoolCheckSize)
  }

  /** The critical section of queue_push_back. */
  function PushBack(s: State, t: nat): State
    requires Alive(s, t)
  {
    if s.size > 0 && !Alive(s, s.tail) then Fault(s)
    else
      var linked := if s.size == 0 then s.(head := t) else SetTask(s, s.tail, s.tasks[s.tail].(next := t));
      var task := linked.tasks[t];
      SetTask(linked, t, task.(stage := Queued, pushes := task.pushes + 1)).
        (tail := t, size := s.size + 1, queue := s.queue + [t], workers := WakeAll(s.workers), client := PushSpawn(t))
  }

  function StepPush(s: State): State
    requires s.client.PushCheck? || s.client.PushStatus? || s.client.PushQueue? || s.client.PushSpawn?
  {
    var t := s.client.t;
    if s.client.PushSpawn? then
      Return(if s.size > s.threads && s.threads < s.maxThreads
             then s.(workers := s.workers + [Pop], threads := s.threads + 1) else s, PushOk(t))
    else if !Alive(s, t) then Fault(s)
    else if s.client.PushCheck? then
      if s.size == TPOOL_MAX_TASKS then Return(s, TooManyTasks) else s.(client := PushStatus(t))
    else if s.client.PushStatus? then SetTask(s, t, s.tasks[t].(status := Pushed)).(client := PushQueue(t))
    else PushBack(s, t)
  }

  function StepJoin(s: State): State
    requires OnTask(s.client)
  {
    var t := s.client.t;
    if !Alive(s, t) then Fault(s)
    else
      var task := s.tasks[t];
      match s.client
      case JoinCheck(_, timed) => if task.status == Free then Return(s, TaskNotPushed) else s.(client := JoinLock(t, timed))
      case JoinLock(_, timed) => SetTask(s, t, task.(mutex := ByClient)).(client := JoinTest(t, timed))
      case JoinTest(_, timed) =>
        if task.status != Finished then SetTask(s, t, task.(mutex := Nobody)).(client := JoinAsleep(t, timed))
        else s.(client := JoinUnlock(t, false))
      case JoinRelock(_, late) => SetTask(s, t, task.(mutex := ByClient)).(client := JoinUnlock(t, late))
      case JoinUnlock(_, late) =>
        var unlocked := SetTask(s, t, task.(mutex := Nobody));
        if late then Return(unlocked, Timeout) else unlocked.(client := JoinStore(t))
      case JoinStore(_) =>
        SetTask(s, t, task.(status := Finished, stage := if task.stage == Done then Own else task.stage)).(client := JoinRead(t))
      case JoinRead(_) => Return(s, JoinOk(t, task.result))
      case _ => s
  }

  function StepDetach(s: State): State
    requires OnTask(s.client)
  {
    var t := s.client.t;
    if !Alive(s, t) then Fault(s)
    else
      var task := s.tasks[t];
      match s.client
      case DetachCheck(_) => if task.status == Free then Return(s, TaskNotPushed) else s.(client := DetachLock(t))
      case DetachLock(_) => SetTask(s, t, task.(mutex := ByClient)).(client := DetachTest(t))
      case DetachTest(_) => s.(client := if task.status == Finished then DetachSetFree(t) else DetachSet(t))
      case DetachSetFree(_) =>
        SetTask(s, t, task.(status := Free, stage := if task.stage == Done then Own else task.stage)).(client := DetachUnlockFree(t))
      case DetachUnlockFree(_) => SetTask(s, t, task.(mutex := Nobody)).(client := DeleteCheckFree(t))
      case DetachSet(_) => SetTask(s, t, task.(detached := true)).(client := DetachUnlock(t))
      case DetachUnlock(_) => Return(SetTask(s, t, task.(mutex := Nobody, mine := false)), DetachOk)
      case DeleteCheckFree(_) => s.(client := if task.status == Free then DeleteTask(t) else DeleteCheckFinished(t))
      case DeleteCheckFinished(_) => if task.status == Finished then s.(client := DeleteTask(t)) else Return(s, TaskInPool)
      case DeleteTask(_) => Return(Destroy(SetTask(s, t, task.(mine := false)), t), DeleteOk)
      case _ => s
  }

  function StepPool(s: State): State {
    match s.client
    case PoolCheckSize => if s.size != 0 then Return(s, HasTasks) else s.(client := PoolCheckRunning)
    case PoolCheckRunning => if s.running != 0 then Return(s, HasTasks) else s.(client := PoolSetDeleting)
    case PoolSetDeleting => s.(deleting := true, client := PoolBroadcast)
    case PoolBroadcast => s.(workers := WakeAll(s.workers), client := PoolJoin(0))
    case PoolJoin(i) => if i < s.threads then s.(client := PoolJoin(i + 1)) else s.(client := PoolFree)
    case PoolFree => Return(s.(poolFreed := true), PoolDeleted)
    case _ => s
  }

  function StepClient(s: State): State {
    var c := s.client;
    if c.PushCheck? || c.PushStatus? || c.PushQueue? || c.PushSpawn? then StepPush(s)
    else if c.JoinCheck? || c.JoinLock? || c.JoinTest? || c.JoinRelock? || c.JoinUnlock? || c.JoinStore? || c.JoinRead? then StepJoin(s)
    else if OnTask(c) then StepDetach(s)
    else StepPool(s)
  }

  // ---------------------------------------------------------------- steps

  /** The mutexes a step waits for are free, and the thread a join waits for has ended. */
  predicate Enabled(s: State, e: Event) {
    match e
    case NewTask(_) => s.client.Idle?
    case Start(_) => s.client.Idle?
    case ClientStep =>
      var c := s.client;
      && !c.Idle? && !c.JoinAsleep?
      && (c.PushQueue? ==> s.lock == Nobody)
      && (c.JoinLock? || c.JoinRelock? || c.DetachLock? ==> Alive(s, c.t) ==> s.tasks[c.t].mutex == Nobody)
      && (c.PoolJoin? && c.i < s.threads && c.i < |s.workers| ==> s.workers[c.i].Exited?)
    case Expire => s.client.JoinAsleep? && s.client.timed
    case SpuriousJoin => s.client.JoinAsleep?
    case Work(i) =>
      && i < |s.workers|
      && var w := s.workers[i];
      && !w.Asleep? && !w.Exited? && !w.Exec?
      && (w.Pop? || w.IdleLock? || w.Woken? ==> s.lock == Nobody)
      && (w.LockTask? ==> Alive(s, w.t) ==> s.tasks[w.t].mutex == Nobody)
    case Execute(i, _) => i < |s.workers| && s.workers[i].Exec?
    case SpuriousWake(i) => i < |s.workers| && s.workers[i].Asleep?
  }

  /**
   What the client owes the pool: it names only tasks it has not given away, pushes a
   task only outside the pool, and lets the pool be once deleted. Of the wake-ups that
   no broadcast causes, those of a joiner are limited to finished tasks.
   */
  predicate Allowed(s: State, e: Event) {
    match e
    case Start(call) =>
      (match call
       case Push(t) => t < |s.tasks| && s.tasks[t].mine && s.tasks[t].stage == Own && !s.poolFreed
       case Join(t) => t < |s.tasks| && s.tasks[t].mine
       case TimedJoin(t) => t < |s.tasks| && s.tasks[t].mine
       case Detach(t) => t < |s.tasks| && s.tasks[t].mine
       case Delete(t) => t < |s.tasks| && s.tasks[t].mine
       case DeletePool => !s.poolFreed)
    case SpuriousJoin => s.client.JoinAsleep? && s.client.t < |s.tasks| && s.tasks[s.client.t].status == Finished
    case _ => true
  }

  /** The step destroys a task whose mutex a worker holds. */
  predicate Hazard(s: State, e: Event) {
    e.ClientStep? && s.client.DeleteTask? && Alive(s, s.client.t) && s.tasks[s.client.t].mutex != Nobody
  }

  /** A client that deletes a task only outside the pool or when a worker is through with it. */
  predicate Orderly(s: State, e: Event) {
    Allowed(s, e) && (e.Start? && e.call.Delete? ==> s.tasks[e.call.t].stage == Own || s.tasks[e.call.t].stage == Done)
  }

  function Step(s: State, e: Event): State
    requires Enabled(s, e)
  {
    match e
    case NewTask(garbage) => s.(tasks := s.tasks + [Task(Free, garbage, 0, false, Nobody, Own, true, 0, [])])
    case Start(call) => StartCall(s, call)
    case ClientStep => StepClient(s)
    case Expire => s.(client := JoinRelock(s.client.t, true))
    case SpuriousJoin => s.(client := JoinRelock(s.client.t, false))
    case Work(i) =>
      if s.poolFreed then Fault(s)
      else if s.workers[i].Pop? then PopFront(s, i)
      else if Holds(s.workers[i]) then WorkTask(s, i)
      else WorkIdle(s, i)
    case Execute(i, value) => RunTask(s, i, value)
    case SpuriousWake(i) => SetWorker(s, i, Woken)
  }
}
