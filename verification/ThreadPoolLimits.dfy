/**
 Runs of a pool of one thread that show what the pool does not promise and why the
 client's side and the assumption about wake-ups are needed. Every state here is
 reachable, but for those after the step that breaks a rule.
 */
module ThreadPoolLimits {
  import opened ThreadPool
  import opened ThreadPoolInvariant
  import opened ThreadPoolSafety

  /** One step of a run, from s to s'. */
  lemma Go(s: State, e: Event, s': State)
    requires Reachable(s) && Goes(s, e) && Step(s, e) == s'
    ensures Reachable(s')
  {
    ReachableStep(s, e);
  }

  function Fresh(status: Status): Task { Task(status, 0, 0, false, Nobody, Own, true, 0, []) }

  /** A pool of one thread with its one task and one worker. */
  function One(task: Task, queue: seq<nat>, running: int, worker: Worker, client: Client): State {
    State([task], 0, 0, |queue|, Nobody, queue, false, running, 1, 1, [worker], client, PushOk(0), false, false)
  }

  /** The task has been pushed and the worker started. */
  function Loaded(client: Client): State {
    One(Task(Pushed, 0, 0, false, Nobody, Queued, true, 1, []), [0], 0, Pop, client)
  }

  lemma MadeReachable()
    ensures Reachable(New(1)[0].(tasks := [Fresh(Free)]))
  {
    var s0 := New(1)[0];
    assert IsRun(s0, []) && s0 == Run(s0, []) && Reachable(s0);
    Go(s0, NewTask(0), s0.(tasks := [Fresh(Free)]));
  }

  lemma LoadedReachable()
    ensures Reachable(Loaded(Idle))
  {
    hide Reachable;
    MadeReachable();
    var s1 := New(1)[0].(tasks := [Fresh(Free)]);
    Go(s1, Start(Push(0)), s1.(client := PushCheck(0)));
    Go(s1.(client := PushCheck(0)), ClientStep, s1.(client := PushStatus(0)));
    Go(s1.(client := PushStatus(0)), ClientStep, s1.(client := PushQueue(0), tasks := [Fresh(Pushed)]));
    var s2 := s1.(client := PushSpawn(0), tasks := [Task(Pushed, 0, 0, false, Nobody, Queued, true, 1, [])], queue := [0], size := 1);
    Go(s1.(client := PushQueue(0), tasks := [Fresh(Pushed)]), ClientStep, s2);
    Go(s2, ClientStep, Loaded(Idle));
  }

  /** The worker has the task. */
  function Working(status: Status, mutex: Owner, results: seq<int>, running: int, worker: Worker): State {
    One(Task(status, 0, if results == [] then 0 else 7, false, mutex, Held(0), true, 1, results), [], running, worker, Idle)
  }

  /** The worker has executed the task, with result 7, and is about to announce it. */
  function Announcing(): State { Working(Finished, ByWorker(0), [7], 1, Broadcast(0)) }

  lemma AnnouncingReachable()
    ensures Reachable(Announcing())
  {
    hide Reachable;
    LoadedReachable();
    Go(Loaded(Idle), Work(0), Working(Pushed, Nobody, [], 0, SetRunning(0)));
    Go(Working(Pushed, Nobody, [], 0, SetRunning(0)), Work(0), Working(Running, Nobody, [], 0, Inc(0)));
    Go(Working(Running, Nobody, [], 0, Inc(0)), Work(0), Working(Running, Nobody, [], 1, Exec(0)));
    var none: seq<int> := [];
    assert none + [7] == [7];
    Go(Working(Running, Nobody, [], 1, Exec(0)), Execute(0, 7), Working(Running, Nobody, [7], 1, LockTask(0)));
    Go(Working(Running, Nobody, [7], 1, LockTask(0)), Work(0), Working(Running, ByWorker(0), [7], 1, CheckDetached(0)));
    Go(Working(Running, ByWorker(0), [7], 1, CheckDetached(0)), Work(0), Working(Running, ByWorker(0), [7], 1, SetFinished(0)));
    Go(Working(Running, ByWorker(0), [7], 1, SetFinished(0)), Work(0), Announcing());
  }

  /** The worker is through with the task. */
  function Resting(running: int, worker: Worker): State {
    One(Task(Finished, 0, 7, false, Nobody, Done, true, 1, [7]), [], running, worker, Idle)
  }

  /** It has found the queue empty, and has not gone to sleep yet. */
  lemma RestingReachable()
    ensures Reachable(Resting(0, IdleLock))
  {
    hide Reachable;
    AnnouncingReachable();
    Go(Announcing(), Work(0), Working(Finished, ByWorker(0), [7], 1, UnlockFinished(0)));
    Go(Working(Finished, ByWorker(0), [7], 1, UnlockFinished(0)), Work(0), Resting(1, Dec));
    Go(Resting(1, Dec), Work(0), Resting(0, Pop));
    Go(Resting(0, Pop), Work(0), Resting(0, IdleLock));
  }

  /** Nothing moves any more unless the client makes another call or the system wakes a worker by itself. */
  ghost predicate Stuck(s: State) {
    forall e: Event :: Enabled(s, e) ==> e.NewTask? || e.Start? || e.SpuriousWake?
  }

  /** A push between a worker's look at the queue and its wait is missed: a task stays queued while every worker sleeps. */
  lemma PushCanBeMissed()
    ensures exists s :: Reachable(s) && s.client == Idle && s.queue != [] && Stuck(s)
  {
    hide Reachable;
    RestingReachable();
    var s0 := Resting(0, IdleLock);
    var s1 := s0.(tasks := s0.tasks + [Fresh(Free)]);
    var s2 := s0.(tasks := s0.tasks + [Fresh(Pushed)]);
    var s3 := s0.(tasks := s0.tasks + [Task(Pushed, 0, 0, false, Nobody, Queued, true, 1, [])], queue := [1], size := 1, head := 1, tail := 1);
    Go(s0, NewTask(0), s1);
    Go(s1, Start(Push(1)), s1.(client := PushCheck(1)));
    Go(s1.(client := PushCheck(1)), ClientStep, s1.(client := PushStatus(1)));
    Go(s1.(client := PushStatus(1)), ClientStep, s2.(client := PushQueue(1)));
    Go(s2.(client := PushQueue(1)), ClientStep, s3.(client := PushSpawn(1)));
    Go(s3.(client := PushSpawn(1)), ClientStep, s3.(ret := PushOk(1)));
    Go(s3.(ret := PushOk(1)), Work(0), s3.(ret := PushOk(1), workers := [IdleCheck], lock := ByWorker(0)));
    Go(s3.(ret := PushOk(1), workers := [IdleCheck], lock := ByWorker(0)), Work(0),
       s3.(ret := PushOk(1), workers := [IdleWait], lock := ByWorker(0)));
    var last := s3.(ret := PushOk(1), workers := [Asleep]);
    Go(s3.(ret := PushOk(1), workers := [IdleWait], lock := ByWorker(0)), Work(0), last);
    assert Stuck(last);
  }

  /** thread_pool_delete can wait for ever: it broadcasts between a worker's look at is_deleting and its wait. */
  lemma PoolDeleteCanHang()
    ensures exists s :: Reachable(s) && s.client == PoolJoin(0) && Stuck(s) && !Enabled(s, ClientStep)
  {
    hide Reachable;
    RestingReachable();
    var s0 := Resting(0, IdleLock);
    var s1 := Resting(0, IdleCheck).(lock := ByWorker(0));
    var s2 := Resting(0, IdleWait).(lock := ByWorker(0));
    Go(s0, Work(0), s1);
    Go(s1, Work(0), s2);
    Go(s2, Start(DeletePool), s2.(client := PoolCheckSize));
    Go(s2.(client := PoolCheckSize), ClientStep, s2.(client := PoolCheckRunning));
    Go(s2.(client := PoolCheckRunning), ClientStep, s2.(client := PoolSetDeleting));
    Go(s2.(client := PoolSetDeleting), ClientStep, s2.(client := PoolBroadcast, deleting := true));
    Go(s2.(client := PoolBroadcast, deleting := true), ClientStep, s2.(client := PoolJoin(0), deleting := true));
    var last := Resting(0, Asleep).(client := PoolJoin(0), deleting := true);
    Go(s2.(client := PoolJoin(0), deleting := true), Work(0), last);
    assert Stuck(last);
  }

  /** With a wake-up that no broadcast caused, join returns before the task has run: the wait is not in a loop. */
  lemma JoinNeedsNoSpuriousWake()
    ensures exists s :: Reachable(s) && Enabled(s, SpuriousJoin) && JoinsEarly(Step(s, SpuriousJoin))
  {
    hide Reachable;
    LoadedReachable();
    Go(Loaded(Idle), Start(Join(0)), Loaded(JoinCheck(0, false)));
    Go(Loaded(JoinCheck(0, false)), ClientStep, Loaded(JoinLock(0, false)));
    var locked := Task(Pushed, 0, 0, false, ByClient, Queued, true, 1, []);
    Go(Loaded(JoinLock(0, false)), ClientStep, One(locked, [0], 0, Pop, JoinTest(0, false)));
    Go(One(locked, [0], 0, Pop, JoinTest(0, false)), ClientStep, Loaded(JoinAsleep(0, false)));
    var s1 := Step(Loaded(JoinRelock(0, false)), ClientStep);
    assert s1 == One(locked, [0], 0, Pop, JoinUnlock(0, false));
    assert Step(s1, ClientStep) == Loaded(JoinStore(0));
    assert JoinsEarly(Loaded(JoinRelock(0, false)));
  }

  /** Four steps of the client later its join has returned, although the task pushed once has no result. */
  ghost predicate JoinsEarly(s: State) {
    && Enabled(s, ClientStep) && var s1 := Step(s, ClientStep);
    && Enabled(s1, ClientStep) && var s2 := Step(s1, ClientStep);
    && Enabled(s2, ClientStep) && var s3 := Step(s2, ClientStep);
    && Enabled(s3, ClientStep) && var s4 := Step(s3, ClientStep);
    s4.ret.JoinOk? && |s4.tasks| == 1 && s4.tasks[0].pushes == 1 && s4.tasks[0].results == []
  }

  /** Deleting a task that was not joined can destroy it while a worker holds its mutex. */
  lemma DeleteNeedsJoin()
    ensures exists s :: Reachable(s) && Enabled(s, Start(Delete(0))) && DeletesHeld(Step(s, Start(Delete(0))))
  {
    hide Reachable;
    AnnouncingReachable();
    var s1 := Announcing().(client := DeleteCheckFree(0));
    assert Step(s1, ClientStep) == Announcing().(client := DeleteCheckFinished(0));
    assert Step(Announcing().(client := DeleteCheckFinished(0)), ClientStep) == Announcing().(client := DeleteTask(0));
    assert DeletesHeld(s1);
  }

  ghost predicate DeletesHeld(s: State) {
    && Enabled(s, ClientStep) && var s1 := Step(s, ClientStep);
    && Enabled(s1, ClientStep) && var s2 := Step(s1, ClientStep);
    && Enabled(s2, ClientStep) && Step(s2, ClientStep).fault
  }
}
