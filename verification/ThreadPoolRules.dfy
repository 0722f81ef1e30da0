/**
 Why the client deletes a task only outside the pool or when it is done, and what a
 joiner gets that wakes up by itself: for every state, exactly when each goes wrong.
 */
module ThreadPoolRules {
  import opened ThreadPool
  import opened ThreadPoolInvariant
  import opened ThreadPoolSafety
  import opened ThreadPoolProgress

  // ---------------------------------------------------------------- tasks in the pool have a worker

  /** With no worker yet, the queue is empty but between the two halves of a push. */
  ghost predicate Manned(s: State) {
    s.maxThreads >= 1 && (s.workers == [] ==> (s.queue != [] <==> s.client.PushSpawn?))
  }

  lemma MannedStep(s: State, e: Event)
    requires Inv(s) && Goes(s, e) && Manned(s)
    ensures Manned(Step(s, e))
  {
    SameMax(s, e);
    if OfWorker(e) {
      WorkerMoves(s, e);
    } else if e.ClientStep? {
      ClientWorkers(s);
      assert QueueOk(s);
      hide Inv;
      if s.client.PushQueue? {
        PushedState(s);
      } else if !s.client.PushSpawn? {
        NotPushSpawn(s);
      }
    }
  }

  lemma SameMax(s: State, e: Event)
    requires Goes(s, e)
    ensures Step(s, e).maxThreads == s.maxThreads
  {
    hide WorkTask, StepJoin, StepDetach, StepPush, StepPool;
    if e.Work? && e.i < |s.workers| && Holds(s.workers[e.i]) { WorkMax(s, e.i); }
    if e.ClientStep? { ClientMax(s); }
  }

  lemma WorkMax(s: State, i: nat)
    requires i < |s.workers| && Holds(s.workers[i])
    ensures WorkTask(s, i).maxThreads == s.maxThreads
  {
  }

  lemma ClientMax(s: State)
    requires Enabled(s, ClientStep)
    ensures StepClient(s).maxThreads == s.maxThreads
  {
    hide StepPush, StepJoin, StepDetach, StepPool;
    if Pushing(s.client) { PushMax(s); }
    else if Joining(s.client) { JoinMax(s); }
    else if OnTask(s.client) { DetachMax(s); }
    else { PoolMax(s); }
  }

  lemma PushMax(s: State)
    requires Pushing(s.client)
    ensures StepPush(s).maxThreads == s.maxThreads
  {
  }

  lemma JoinMax(s: State)
    requires Joining(s.client)
    ensures StepJoin(s).maxThreads == s.maxThreads
  {
  }

  lemma DetachMax(s: State)
    requires OnTask(s.client)
    ensures StepDetach(s).maxThreads == s.maxThreads
  {
  }

  lemma PoolMax(s: State)
    ensures StepPool(s).maxThreads == s.maxThreads
  {
  }

  lemma PushedState(s: State)
    requires s.client.PushQueue?
    ensures StepClient(s) == Fault(s) || (StepClient(s).client.PushSpawn? && StepClient(s).queue == s.queue + [s.client.t])
  {
  }

  lemma NotPushSpawn(s: State)
    requires Enabled(s, ClientStep) && !s.client.PushQueue? && !s.client.PushSpawn?
    ensures !StepClient(s).client.PushSpawn?
  {
    if !Pushing(s.client) { NotYetPushing(s); }
  }

  lemma {:induction false} RunManned(s: State, events: seq<Event>)
    requires Inv(s) && Manned(s) && IsRun(s, events)
    ensures Inv(Run(s, events)) && Manned(Run(s, events))
    decreases |events|
  {
    hide Inv, Manned, Goes;
    if events != [] {
      GoesFacts(s, events[0]);
      MannedStep(s, events[0]);
      StepInv(s, events[0]);
      RunManned(Step(s, events[0]), events[1..]);
    }
  }

  lemma ReachableManned(s: State)
    requires Reachable(s)
    ensures Inv(s) && Manned(s)
  {
    var n: int, events: seq<Event> :| |New(n)| == 1 && IsRun(New(n)[0], events) && s == Run(New(n)[0], events);
    RunManned(New(n)[0], events);
  }

  // ---------------------------------------------------------------- from a queued task to its worker's broadcast

  /** The steps of the pool, without the client. */
  predicate OfPool(e: Event) { OfWorker(e) || e.SpuriousWake? }

  ghost predicate PoolRun(s: State, events: seq<Event>) { IsRun(s, events) && forall k :: 0 <= k < |events| ==> OfPool(events[k]) }

  lemma {:induction false} PoolRunConcat(s: State, x: seq<Event>, y: seq<Event>)
    requires PoolRun(s, x) && PoolRun(Run(s, x), y)
    ensures PoolRun(s, x + y) && Run(s, x + y) == Run(Run(s, x), y)
    decreases |x|
  {
    if x == [] {
      assert x + y == y;
    } else {
      assert (x + y)[1..] == x[1..] + y && OfPool(x[0]);
      assert PoolRun(Step(s, x[0]), x[1..]);
      PoolRunConcat(Step(s, x[0]), x[1..], y);
    }
  }

  lemma PoolRunCons(s: State, e: Event, rest: seq<Event>)
    requires Goes(s, e) && OfPool(e) && PoolRun(Step(s, e), rest)
    ensures PoolRun(s, [e] + rest) && Run(s, [e] + rest) == Run(Step(s, e), rest)
  {
    assert ([e] + rest)[1..] == rest;
  }

  /** The worker of t has declared it finished and still holds its mutex. */
  ghost predicate AtBroadcast(s: State, t: nat) {
    && t < |s.tasks| && s.tasks[t].stage.Held? && s.tasks[t].status == Finished && s.tasks[t].mutex != Nobody
    && s.client.Idle? && Inv(s)
  }

  /** The client may name t, is in no call, and t is in the pool. */
  ghost predicate InPool(s: State, t: nat) {
    Inv(s) && s.client.Idle? && t < |s.tasks| && s.tasks[t].mine && (s.tasks[t].stage == Queued || s.tasks[t].stage.Held?)
  }

  /** A worker with its task is at its broadcast, or one step nearer to it. */
  lemma HeldStep(s: State, t: nat) returns (e: Event)
    requires InPool(s, t) && s.tasks[t].stage.Held? && !AtBroadcast(s, t)
    ensures Goes(s, e) && OfPool(e) && InPool(Step(s, e), t) && Step(s, e).tasks[t].stage == s.tasks[t].stage
    ensures StepsLeft(Step(s, e)) < StepsLeft(s)
  {
    var i := s.tasks[t].stage.worker;
    assert TaskOk(s, t) && WorkerOk(s, i);
    e := SomebodyCan(s, i);
    StepInv(s, e);
    StepsFall(s, e);
    WorkerOrClient(s, e);
    HeldStays(s, e, t);
  }

  lemma HeldStays(s: State, e: Event, t: nat)
    requires InPool(s, t) && s.tasks[t].stage.Held? && !AtBroadcast(s, t) && Goes(s, e) && OfWorker(e) && e.i == s.tasks[t].stage.worker
    ensures t < |Step(s, e).tasks| && Step(s, e).tasks[t].mine && Step(s, e).tasks[t].stage == s.tasks[t].stage
  {
    assert TaskOk(s, t) && WorkerOk(s, e.i);
    PoolStillThere(s, e);
    assert !s.tasks[t].detached;
    assert !s.workers[e.i].Broadcast? && !s.workers[e.i].UnlockFinished?;
    hide Inv, TaskOk, WorkerOk, InPool, AtBroadcast;
    EarlyTask(s, e);
  }

  lemma EarlyTask(s: State, e: Event)
    requires Enabled(s, e) && OfWorker(e) && !s.poolFreed && Holds(s.workers[e.i]) && Alive(s, s.workers[e.i].t)
    requires var w := s.workers[e.i]; Early(w) || w.Exec? || w.SetFinished?
    ensures var t, s' := s.workers[e.i].t, Step(s, e);
            t < |s'.tasks| && s'.tasks[t].mine == s.tasks[t].mine && s'.tasks[t].stage == s.tasks[t].stage
  {
  }

  lemma {:induction false} HeldToBroadcast(s: State, t: nat) returns (events: seq<Event>)
    requires InPool(s, t) && s.tasks[t].stage.Held?
    ensures PoolRun(s, events) && AtBroadcast(Run(s, events), t)
    decreases StepsLeft(s)
  {
    hide InPool, AtBroadcast, StepsLeft;
    events := [];
    if !AtBroadcast(s, t) {
      var e := HeldStep(s, t);
      InPoolBounds(Step(s, e), t);
      var rest := HeldToBroadcast(Step(s, e), t);
      PoolRunCons(s, e, rest);
      events := [e] + rest;
    }
  }

  lemma InPoolBounds(s: State, t: nat)
    requires InPool(s, t)
    ensures t < |s.tasks| && Inv(s) && s.client.Idle? && (s.tasks[t].stage == Queued || s.tasks[t].stage.Held?)
    ensures s.tasks[t].stage == Queued ==> t in s.queue
  {
    assert TaskOk(s, t);
  }

  /** A queued task stays queued or comes into the hands of a worker. */
  lemma QueuedStep(s: State, e: Event, t: nat)
    requires InPool(s, t) && s.tasks[t].stage == Queued && Goes(s, e) && OfPool(e)
    ensures InPool(Step(s, e), t)
  {
    StepInv(s, e);
    assert TaskOk(s, t);
    if OfWorker(e) && Holds(s.workers[e.i]) {
      if e.Work? { PoolAlive(s, e.i); WorkElsewhere(s, e.i); } else { ExecuteElsewhere(s, e.i, e.value); }
    }
    PoolStillThere(s, e);
    WorkerOrClient(s, e);
    hide Inv, TaskOk, WorkTask, RunTask;
  }

  lemma {:induction false} QueuedToBroadcast(s: State, t: nat) returns (events: seq<Event>)
    requires InPool(s, t) && Awake(s)
    ensures PoolRun(s, events) && AtBroadcast(Run(s, events), t)
    decreases StepsLeft(s)
  {
    hide InPool, AtBroadcast, StepsLeft, Awake;
    InPoolBounds(s, t);
    if s.tasks[t].stage.Held? {
      events := HeldToBroadcast(s, t);
    } else {
      AwakeCan(s);
      var e := AnyStep(s);
      GoesFacts(s, e);
      StepsFall(s, e);
      StaysAwake(s, e);
      QueuedStep(s, e, t);
      var rest := QueuedToBroadcast(Step(s, e), t);
      PoolRunCons(s, e, rest);
      events := [e] + rest;
    }
  }

  lemma {:induction false} DoomedKeeps(s: State, events: seq<Event>, t: nat)
    requires InPool(s, t) && s.tasks[t].stage == Queued && !Awake(s) && WorkerRun(s, events)
    ensures var r := Run(s, events); PoolRun(s, events) && InPool(r, t) && r.tasks[t].stage == Queued && |r.workers| == |s.workers|
    decreases |events|
  {
    hide InPool, Awake, Goes;
    if events != [] {
      var e := events[0];
      assert OfWorker(e);
      GoesFacts(s, e);
      InPoolBounds(s, t);
      StaysDoomed(s, e);
      WorkerMoves(s, e);
      QueuedStep(s, e, t);
      StillQueued(Step(s, e), t);
      DoomedKeeps(Step(s, e), events[1..], t);
    }
  }

  lemma StillQueued(s: State, t: nat)
    requires InPool(s, t) && t in s.queue
    ensures s.tasks[t].stage == Queued
  {
    assert QueueOk(s);
  }

  /** Whoever sleeps: the pool can get to the broadcast of any task in it. */
  lemma ToBroadcast(s: State, t: nat) returns (events: seq<Event>)
    requires InPool(s, t) && Manned(s)
    ensures PoolRun(s, events) && AtBroadcast(Run(s, events), t)
  {
    hide AtBroadcast, Awake;
    InPoolBounds(s, t);
    if s.tasks[t].stage.Held? {
      events := HeldToBroadcast(s, t);
    } else if Awake(s) {
      events := QueuedToBroadcast(s, t);
    } else {
      var down := Exhaust(s);
      var u := Run(s, down);
      DoomedKeeps(s, down, t);
      AllAsleep(u, t);
      var wake, v := SpuriousWake(0), Step(u, SpuriousWake(0));
      WokenIsAwake(u, t);
      var rest := QueuedToBroadcast(v, t);
      PoolRunCons(u, wake, rest);
      PoolRunConcat(s, down, [wake] + rest);
      events := down + ([wake] + rest);
    }
  }

  lemma AllAsleep(s: State, t: nat)
    requires InPool(s, t) && Exhausted(s) && s.tasks[t].stage == Queued && s.workers != []
    ensures Goes(s, SpuriousWake(0))
  {
    InPoolBounds(s, t);
    assert !s.deleting && WorkerOk(s, 0);
    if !s.workers[0].Asleep? {
      var e := SomebodyCan(s, 0);
    }
  }

  lemma WokenIsAwake(s: State, t: nat)
    requires InPool(s, t) && s.tasks[t].stage == Queued && Goes(s, SpuriousWake(0))
    ensures InPool(Step(s, SpuriousWake(0)), t) && Awake(Step(s, SpuriousWake(0)))
  {
    QueuedStep(s, SpuriousWake(0), t);
    hide InPool;
    assert Step(s, SpuriousWake(0)).workers[0].Woken?;
  }

  // ---------------------------------------------------------------- deleting a task that is not done

  /** The steps of the pool are what they are without the call, or in another one, unless that waits for a broadcast. */
  lemma StepBeside(s: State, e: Event, c: Client, ret: Ret)
    requires Goes(s, e) && OfPool(e) && !s.client.JoinAsleep? && !c.JoinAsleep?
    ensures Goes(s.(client := c, ret := ret), e) && Step(s.(client := c, ret := ret), e) == Step(s, e).(client := c, ret := ret)
    ensures Step(s, e).client == s.client && Step(s, e).ret == s.ret
  {
    hide WorkTask, WorkIdle, PopFront, RunTask;
    ClientBeside(s, e);
    if e.Execute? { ExecuteBeside(s, e.i, e.value, c, ret); }
    if e.Work? && !s.poolFreed {
      if s.workers[e.i].Pop? { PopBeside(s, e.i, c, ret); }
      else if Holds(s.workers[e.i]) { WorkBeside(s, e.i, c, ret); }
      else { IdleBeside(s, e.i, c, ret); }
    }
  }

  lemma ClientBeside(s: State, e: Event)
    requires Enabled(s, e) && OfPool(e) && !s.client.JoinAsleep?
    ensures Step(s, e).client == s.client && Step(s, e).ret == s.ret
  {
    hide WorkTask;
    if e.Work? && Holds(s.workers[e.i]) {
      if Alive(s, s.workers[e.i].t) { WorkIsWorked(s, e.i); } else { DeadWork(s, e.i); }
    }
  }

  lemma ExecuteBeside(s: State, i: nat, value: int, c: Client, ret: Ret)
    requires i < |s.workers| && s.workers[i].Exec?
    ensures RunTask(s.(client := c, ret := ret), i, value) == RunTask(s, i, value).(client := c, ret := ret)
  {
  }

  lemma PopBeside(s: State, i: nat, c: Client, ret: Ret)
    requires i < |s.workers|
    ensures PopFront(s.(client := c, ret := ret), i) == PopFront(s, i).(client := c, ret := ret)
  {
  }

  lemma IdleBeside(s: State, i: nat, c: Client, ret: Ret)
    requires i < |s.workers| && !Holds(s.workers[i])
    ensures WorkIdle(s.(client := c, ret := ret), i) == WorkIdle(s, i).(client := c, ret := ret)
  {
    var u, w := s.(client := c, ret := ret), s.workers[i];
    if w.IdleLock? || w.IdleCheck? {
      assert SetWorker(u, i, IdleWait) == SetWorker(s, i, IdleWait).(client := c, ret := ret);
    } else if w.IdleWait? || w.Woken? || w.Dec? {
      assert SetWorker(u, i, Pop) == SetWorker(s, i, Pop).(client := c, ret := ret);
    }
  }

  lemma WorkBeside(s: State, i: nat, c: Client, ret: Ret)
    requires i < |s.workers| && Holds(s.workers[i]) && !s.workers[i].Exec? && !s.client.JoinAsleep? && !c.JoinAsleep?
    ensures WorkTask(s.(client := c, ret := ret), i) == WorkTask(s, i).(client := c, ret := ret) && WorkTask(s, i).ret == s.ret
  {
    hide WorkTask, TaskAfter, Place;
    if Alive(s, s.workers[i].t) {
      WorkIsWorked(s, i);
      WorkIsWorked(s.(client := c, ret := ret), i);
      WorkedBeside(s, i, c, ret);
    } else {
      DeadWork(s, i);
      DeadWork(s.(client := c, ret := ret), i);
    }
  }

  lemma WorkedBeside(s: State, i: nat, c: Client, ret: Ret)
    requires i < |s.workers| && Holds(s.workers[i]) && Alive(s, s.workers[i].t)
    ensures Place(s.(client := c, ret := ret), i) == Place(s, i) && TaskAfter(s.(client := c, ret := ret), i) == TaskAfter(s, i)
  {
  }

  lemma {:induction false} RunBeside(s: State, events: seq<Event>, c: Client, ret: Ret)
    requires PoolRun(s, events) && !s.client.JoinAsleep? && !c.JoinAsleep?
    ensures PoolRun(s.(client := c, ret := ret), events)
    ensures Run(s.(client := c, ret := ret), events) == Run(s, events).(client := c, ret := ret)
    ensures Run(s, events).client == s.client && Run(s, events).ret == s.ret
    decreases |events|
  {
    hide Goes, Step;
    if events != [] {
      assert OfPool(events[0]);
      GoesFacts(s, events[0]);
      StepBeside(s, events[0], c, ret);
      GoesFacts(s.(client := c, ret := ret), events[0]);
      assert PoolRun(Step(s, events[0]), events[1..]);
      RunBeside(Step(s, events[0]), events[1..], c, ret);
    }
  }

  /** A run within one call of thread_task_delete(t). */
  ghost predicate DeleteCall(s: State, t: nat, events: seq<Event>) {
    && events != [] && events[0] == Start(Delete(t)) && IsRun(s, events)
    && forall k :: 1 <= k < |events| ==> OfPool(events[k]) || events[k].ClientStep?
  }

  lemma {:induction false} DeleteRunOrderly(s: State, events: seq<Event>)
    requires IsRun(s, events) && forall k :: 0 <= k < |events| ==> OfPool(events[k]) || events[k].ClientStep?
    ensures IsOrderly(s, events)
    decreases |events|
  {
    hide Goes, Enabled, Step;
    if events != [] {
      assert OfPool(events[0]) || events[0].ClientStep?;
      GoesFacts(s, events[0]);
      DeleteRunOrderly(Step(s, events[0]), events[1..]);
    }
  }

  /** Outside the pool or done: no interleaving of the call destroys a mutex that is held. */
  lemma DeleteIsSafe(s: State, t: nat, events: seq<Event>)
    requires Inv(s) && s.client.Idle? && t < |s.tasks| && (s.tasks[t].stage == Own || s.tasks[t].stage == Done)
    requires DeleteCall(s, t, events)
    ensures !Hazard(Run(s, events), ClientStep)
  {
    var s1 := Step(s, events[0]);
    OrderlyStep(s, events[0]);
    StepInv(s, events[0]);
    DeleteRunOrderly(s1, events[1..]);
    OrderlyIsRun(s1, events[1..]);
    var r := Run(s, events);
    if Hazard(r, ClientStep) {
      DeletingKept(r);
      assert false;
    }
  }

  lemma DeletingKept(s: State)
    requires Inv(s) && Tidy(s) && Deleting(s.client)
    ensures !Hazard(s, ClientStep)
  {
    DeletingOn(s);
  }

  /** In the pool: an interleaving that does. */
  lemma DeleteIsNot(s: State, t: nat) returns (events: seq<Event>)
    requires InPool(s, t) && Manned(s)
    ensures DeleteCall(s, t, events) && Hazard(Run(s, events), ClientStep)
  {
    hide Goes, Step, Hazard, InPool, AtBroadcast, Enabled, Manned, Inv;
    InPoolBounds(s, t);
    var run := ToBroadcast(s, t);
    var c := DeleteCheckFinished(t);
    var u := Run(s, run);
    RunBeside(s, run, c, s.ret);
    DeleteStarts(s, t);
    DeleteEnds(u, t);
    GoesFacts(u.(client := c), ClientStep);
    var s1, s2 := s.(client := DeleteCheckFree(t)), s.(client := c);
    RunAppend(s2, run, ClientStep);
    var tail := run + [ClientStep];
    var middle := [ClientStep] + tail;
    events := [Start(Delete(t))] + middle;
    assert events[1..] == middle && middle[1..] == tail;
    assert IsRun(s1, middle) && Run(s1, middle) == Run(s2, tail);
    forall k | 1 <= k < |events| ensures OfPool(events[k]) || events[k].ClientStep? {
      if 2 <= k < |run| + 2 { assert events[k] == run[k - 2]; }
    }
  }

  lemma DeleteStarts(s: State, t: nat)
    requires InPool(s, t)
    ensures Goes(s, Start(Delete(t))) && Step(s, Start(Delete(t))) == s.(client := DeleteCheckFree(t))
    ensures var s1 := s.(client := DeleteCheckFree(t)); Goes(s1, ClientStep) && Step(s1, ClientStep) == s.(client := DeleteCheckFinished(t))
  {
    assert TaskOk(s, t);
    assert s.tasks[t].stage.Held? ==> WorkerOk(s, s.tasks[t].stage.worker);
  }

  lemma DeleteEnds(s: State, t: nat)
    requires AtBroadcast(s, t)
    ensures var u := s.(client := DeleteCheckFinished(t)); Goes(u, ClientStep) && Hazard(Step(u, ClientStep), ClientStep)
  {
  }

  /**
   Deleting a task is safe exactly outside the pool or when a worker is through with it:
   otherwise, and only then, some interleaving of the call destroys a locked mutex.
   */
  lemma DeleteSafeExactly(s: State, t: nat)
    requires Reachable(s) && s.client.Idle? && t < |s.tasks| && s.tasks[t].mine
    ensures (forall events :: DeleteCall(s, t, events) ==> !Hazard(Run(s, events), ClientStep))
            <==> s.tasks[t].stage == Own || s.tasks[t].stage == Done
  {
    ReachableManned(s);
    assert TaskOk(s, t);
    hide Inv, Manned, Hazard;
    if s.tasks[t].stage == Own || s.tasks[t].stage == Done {
      forall events | DeleteCall(s, t, events) ensures !Hazard(Run(s, events), ClientStep) { DeleteIsSafe(s, t, events); }
    } else {
      var events := DeleteIsNot(s, t);
    }
  }

  /** A task that has not finished is refused, and nothing changes. */
  lemma DeleteRefuses(s: State, t: nat)
    requires InPool(s, t) && s.tasks[t].status != Finished
    ensures var call := [Start(Delete(t)), ClientStep, ClientStep];
            DeleteCall(s, t, call) && Run(s, call) == s.(ret := TaskInPool)
  {
    DeleteStarts(s, t);
    RefuseStep(s, t);
    hide InPool, Goes, Step;
    var s1, s2, s3 := s.(client := DeleteCheckFree(t)), s.(client := DeleteCheckFinished(t)), s.(ret := TaskInPool);
    assert IsRun(s3, []) && Run(s3, []) == s3;
    var one := [ClientStep];
    assert one[1..] == [] && IsRun(s2, one) && Run(s2, one) == s3;
    var two := [ClientStep, ClientStep];
    assert two[1..] == one && IsRun(s1, two) && Run(s1, two) == s3;
    var call := [Start(Delete(t)), ClientStep, ClientStep];
    assert call[1..] == two;
  }

  lemma RefuseStep(s: State, t: nat)
    requires InPool(s, t) && s.tasks[t].status != Finished
    ensures var s2 := s.(client := DeleteCheckFinished(t)); Goes(s2, ClientStep) && Step(s2, ClientStep) == s.(ret := TaskInPool)
  {
    assert TaskOk(s, t);
  }

  // ---------------------------------------------------------------- a joiner that wakes up by itself

  /** A run whose steps need only be possible. */
  ghost predicate CanRun(s: State, events: seq<Event>)
    decreases |events|
  {
    events == [] || (Enabled(s, events[0]) && CanRun(Step(s, events[0]), events[1..]))
  }

  ghost function RunAny(s: State, events: seq<Event>): State
    requires CanRun(s, events)
    decreases |events|
  {
    if events == [] then s else RunAny(Step(s, events[0]), events[1..])
  }

  /** The joiner of t, woken by nothing, goes on. */
  ghost predicate WokenRun(s: State, events: seq<Event>) {
    && s.client.JoinAsleep? && events != [] && events[0] == SpuriousJoin && CanRun(s, events)
    && forall k :: 1 <= k < |events| ==> OfPool(events[k]) || events[k].ClientStep?
  }

  /** Not executed yet as often as pushed. */
  predicate Pending(s: State, t: nat) { t < |s.tasks| && |s.tasks[t].results| < s.tasks[t].pushes }

  /** The joiner that goes on at once, without a step of a worker. */
  lemma ReturnsEarly(s: State)
    requires Inv(s) && s.client.JoinAsleep? && s.client.t < |s.tasks|
    requires s.tasks[s.client.t].status != Finished && s.tasks[s.client.t].mutex == Nobody
    ensures var t, events := s.client.t, [SpuriousJoin, ClientStep, ClientStep, ClientStep, ClientStep];
            && WokenRun(s, events)
            && var r := RunAny(s, events);
            && r.client.Idle? && r.ret == JoinOk(t, s.tasks[t].result) && t < |r.tasks|
            && r.tasks[t] == s.tasks[t].(status := Finished) && (r.tasks[t].stage == Queued || r.tasks[t].stage.Held?)
  {
    var t := s.client.t;
    assert TaskOk(s, t);
    var s1 := s.(client := JoinRelock(t, false));
    var s2 := SetTask(s, t, s.tasks[t].(mutex := ByClient)).(client := JoinUnlock(t, false));
    var s3 := s.(client := JoinStore(t));
    var s4 := SetTask(s, t, s.tasks[t].(status := Finished)).(client := JoinRead(t));
    var s5 := Return(s4, JoinOk(t, s.tasks[t].result));
    WakeSteps(s);
    UnlockStep(s);
    StoreSteps(s);
    StepsOne(s4, s5);
    StepsMore(s3, s4, s5, [ClientStep]);
    StepsMore(s2, s3, s5, [ClientStep, ClientStep]);
    StepsMore(s1, s2, s5, [ClientStep, ClientStep, ClientStep]);
    hide Inv, TaskOk, Step, Enabled, SetTask;
    var events := [SpuriousJoin, ClientStep, ClientStep, ClientStep, ClientStep];
    assert events[1..] == [ClientStep, ClientStep, ClientStep, ClientStep] == [ClientStep] + [ClientStep, ClientStep, ClientStep];
  }

  lemma StepsOne(s: State, last: State)
    requires Enabled(s, ClientStep) && Step(s, ClientStep) == last
    ensures CanRun(s, [ClientStep]) && RunAny(s, [ClientStep]) == last
  {
    hide Step, Enabled;
    var one: seq<Event> := [ClientStep];
    assert one[1..] == [] && CanRun(last, []) && RunAny(last, []) == last;
  }

  lemma StepsMore(s: State, s': State, last: State, rest: seq<Event>)
    requires Enabled(s, ClientStep) && Step(s, ClientStep) == s' && CanRun(s', rest) && RunAny(s', rest) == last
    ensures CanRun(s, [ClientStep] + rest) && RunAny(s, [ClientStep] + rest) == last
  {
    hide Step, Enabled;
    assert ([ClientStep] + rest)[1..] == rest;
  }

  lemma WakeSteps(s: State)
    requires s.client.JoinAsleep? && Alive(s, s.client.t) && s.tasks[s.client.t].mutex == Nobody
    ensures var t := s.client.t;
            var s1 := s.(client := JoinRelock(t, false));
            && Enabled(s, SpuriousJoin) && Step(s, SpuriousJoin) == s1 && Enabled(s1, ClientStep)
            && Step(s1, ClientStep) == SetTask(s, t, s.tasks[t].(mutex := ByClient)).(client := JoinUnlock(t, false))
  {
  }

  lemma UnlockStep(s: State)
    requires s.client.JoinAsleep? && Alive(s, s.client.t) && s.tasks[s.client.t].mutex == Nobody
    ensures var t := s.client.t;
            var s2 := SetTask(s, t, s.tasks[t].(mutex := ByClient)).(client := JoinUnlock(t, false));
            Enabled(s2, ClientStep) && Step(s2, ClientStep) == s.(client := JoinStore(t))
  {
    var t := s.client.t;
    assert s.tasks[t := s.tasks[t].(mutex := ByClient)][t := s.tasks[t]] == s.tasks;
  }

  lemma StoreSteps(s: State)
    requires s.client.JoinAsleep? && Alive(s, s.client.t) && s.tasks[s.client.t].stage != Done
    ensures var t := s.client.t;
            var s3, s4 := s.(client := JoinStore(t)), SetTask(s, t, s.tasks[t].(status := Finished)).(client := JoinRead(t));
            && Enabled(s3, ClientStep) && Step(s3, ClientStep) == s4
            && Enabled(s4, ClientStep) && Step(s4, ClientStep) == Return(s4, JoinOk(t, s.tasks[t].result))
  {
  }

  /** Without a push nothing becomes pending. */
  lemma NothingPending(s: State, e: Event, t: nat)
    requires Enabled(s, e) && (OfPool(e) || e.ClientStep?) && !Pushing(s.client) && t < |s.tasks| && !Pending(s, t)
    ensures t < |Step(s, e).tasks| && !Pending(Step(s, e), t) && !Pushing(Step(s, e).client)
  {
    hide PopFront, WorkTask, WorkIdle, RunTask, StepJoin, StepDetach, StepPool;
    if OfPool(e) {
      WorkerOrClient(s, e);
      if OfWorker(e) { WorkerPending(s, e, t); }
    } else {
      NotYetPushing(s);
      ClientPending(s, t);
    }
  }

  lemma WorkerPending(s: State, e: Event, t: nat)
    requires Enabled(s, e) && OfWorker(e) && t < |s.tasks| && !Pending(s, t)
    ensures t < |Step(s, e).tasks| && !Pending(Step(s, e), t)
  {
    hide WorkTask;
    if e.Work? && Holds(s.workers[e.i]) && Alive(s, s.workers[e.i].t) {
      WorkIsWorked(s, e.i);
    } else if e.Work? && Holds(s.workers[e.i]) {
      DeadWork(s, e.i);
    }
  }

  lemma DeadWork(s: State, i: nat)
    requires i < |s.workers| && Holds(s.workers[i]) && !Alive(s, s.workers[i].t)
    ensures WorkTask(s, i) == Fault(s)
  {
  }

  lemma ClientPending(s: State, t: nat)
    requires Enabled(s, ClientStep) && !Pushing(s.client) && t < |s.tasks| && !Pending(s, t)
    ensures t < |StepClient(s).tasks| && !Pending(StepClient(s), t)
  {
    hide StepPush, StepJoin, StepDetach, StepPool;
    if Joining(s.client) { JoinPending(s, t); }
    else if OnTask(s.client) { DetachPending(s, t); }
    else { PoolPending(s, t); }
  }

  lemma JoinPending(s: State, t: nat)
    requires Joining(s.client) && t < |s.tasks| && !Pending(s, t)
    ensures t < |StepJoin(s).tasks| && !Pending(StepJoin(s), t)
  {
    hide StepJoin;
    var c := s.client;
    if c.JoinCheck? || c.JoinLock? { JoinBegins(s, t); }
    else if c.JoinTest? || c.JoinRelock? { JoinTests(s, t); }
    else if c.JoinUnlock? { JoinUnlocks(s, t); }
    else { JoinEnds(s, t); }
  }

  lemma JoinBegins(s: State, t: nat)
    requires (s.client.JoinCheck? || s.client.JoinLock?) && t < |s.tasks| && !Pending(s, t)
    ensures t < |StepJoin(s).tasks| && !Pending(StepJoin(s), t)
  {
  }

  lemma JoinTests(s: State, t: nat)
    requires (s.client.JoinTest? || s.client.JoinRelock?) && t < |s.tasks| && !Pending(s, t)
    ensures t < |StepJoin(s).tasks| && !Pending(StepJoin(s), t)
  {
  }

  lemma JoinUnlocks(s: State, t: nat)
    requires (s.client.JoinUnlock?) && t < |s.tasks| && !Pending(s, t)
    ensures t < |StepJoin(s).tasks| && !Pending(StepJoin(s), t)
  {
  }

  lemma JoinEnds(s: State, t: nat)
    requires (s.client.JoinStore? || s.client.JoinRead?) && t < |s.tasks| && !Pending(s, t)
    ensures t < |StepJoin(s).tasks| && !Pending(StepJoin(s), t)
  {
  }

  lemma DetachPending(s: State, t: nat)
    requires OnTask(s.client) && t < |s.tasks| && !Pending(s, t)
    ensures t < |StepDetach(s).tasks| && !Pending(StepDetach(s), t)
  {
    hide StepDetach;
    if Deleting(s.client) {
      DeletePending(s, t);
    } else if s.client.DetachSetFree? || s.client.DetachUnlockFree? {
      FreePending(s, t);
    } else {
      MarkPending(s, t);
    }
  }

  lemma DeletePending(s: State, t: nat)
    requires Deleting(s.client) && t < |s.tasks| && !Pending(s, t)
    ensures t < |StepDetach(s).tasks| && !Pending(StepDetach(s), t)
  {
  }

  lemma FreePending(s: State, t: nat)
    requires (s.client.DetachSetFree? || s.client.DetachUnlockFree?) && t < |s.tasks| && !Pending(s, t)
    ensures t < |StepDetach(s).tasks| && !Pending(StepDetach(s), t)
  {
  }

  lemma MarkPending(s: State, t: nat)
    requires OnTask(s.client) && !Deleting(s.client) && !s.client.DetachSetFree? && !s.client.DetachUnlockFree?
    requires t < |s.tasks| && !Pending(s, t)
    ensures t < |StepDetach(s).tasks| && !Pending(StepDetach(s), t)
  {
  }

  lemma PoolPending(s: State, t: nat)
    requires t < |s.tasks| && !Pending(s, t)
    ensures t < |StepPool(s).tasks| && !Pending(StepPool(s), t)
  {
  }

  lemma {:induction false} NeverPending(s: State, events: seq<Event>, t: nat)
    requires CanRun(s, events) && (forall k :: 0 <= k < |events| ==> OfPool(events[k]) || events[k].ClientStep?)
    requires !Pushing(s.client) && t < |s.tasks| && !Pending(s, t)
    ensures !Pending(RunAny(s, events), t)
    decreases |events|
  {
    hide Enabled, Step, Pending;
    if events != [] {
      assert OfPool(events[0]) || events[0].ClientStep?;
      NothingPending(s, events[0], t);
      NeverPending(Step(s, events[0]), events[1..], t);
    }
  }

  /**
   A joiner that wakes by itself before the task is finished can come back from join
   before the execution it waits for exactly if that has not happened when it wakes.
   */
  lemma EarlyExactly(s: State)
    requires Reachable(s) && s.client.JoinAsleep? && s.client.t < |s.tasks| && s.tasks[s.client.t].status != Finished
    ensures (exists events :: WokenRun(s, events) && RunAny(s, events).client.Idle? && Pending(RunAny(s, events), s.client.t))
            <==> Pending(s, s.client.t)
  {
    ReachableInv(s);
    var t := s.client.t;
    if Pending(s, t) {
      PendingUnlocked(s);
      ReturnsEarly(s);
      var events := [SpuriousJoin, ClientStep, ClientStep, ClientStep, ClientStep];
      assert Pending(RunAny(s, events), t);
    } else {
      hide Inv;
      forall events | WokenRun(s, events) ensures !Pending(RunAny(s, events), t) {
        NeverPending(Step(s, SpuriousJoin), events[1..], t);
      }
    }
  }

  lemma PendingUnlocked(s: State)
    requires Inv(s) && s.client.JoinAsleep? && Pending(s, s.client.t)
    ensures s.tasks[s.client.t].mutex == Nobody
  {
    var t := s.client.t;
    var m := s.tasks[t].mutex;
    assert TaskOk(s, t);
    assert m.ByWorker? && m.worker < |s.workers| ==> WorkerOk(s, m.worker);
  }
}
