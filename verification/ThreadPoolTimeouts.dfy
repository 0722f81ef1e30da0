/**
 A join that times out has done nothing: the pool is where the steps of its workers
 alone would have brought it, and the task can be joined again.
 */
module ThreadPoolTimeouts {
  import opened ThreadPool
  import opened ThreadPoolInvariant
  import opened ThreadPoolSafety
  import opened ThreadPoolProgress
  import opened ThreadPoolRules

  /** The state without the call of the client on task t, which last returned `ret`. */
  function Without(s: State, t: nat, ret: Ret): State
    requires t < |s.tasks|
  {
    var task := s.tasks[t];
    SetTask(s, t, task.(mutex := if task.mutex == ByClient then Nobody else task.mutex)).(client := Idle, ret := ret)
  }

  /** In a timed join of t, or back from one that timed out. */
  predicate MayTimeOut(s: State, t: nat) {
    var c := s.client;
    || (c.Idle? && s.ret == Timeout)
    || ((c.JoinCheck? || c.JoinLock? || c.JoinTest? || c.JoinAsleep?) && c.t == t && c.timed)
    || ((c.JoinRelock? || c.JoinUnlock?) && c.t == t && c.late)
  }

  /** In a join that returns otherwise, or back from it. */
  predicate NoTimeout(s: State) {
    var c := s.client;
    (c.Idle? && s.ret != Timeout) || ((c.JoinRelock? || c.JoinUnlock?) && !c.late) || c.JoinStore? || c.JoinRead?
  }

  /** What may happen while the client is in a join. */
  predicate InJoin(e: Event) { OfPool(e) || e.ClientStep? || e.Expire? || e.SpuriousJoin? }

  // ---------------------------------------------------------------- one step

  lemma ExecuteWithout(s: State, i: nat, value: int, t: nat, ret: Ret)
    requires i < |s.workers| && s.workers[i].Exec? && t < |s.tasks| && Alive(s, s.workers[i].t)
    ensures t < |RunTask(s, i, value).tasks| && Without(RunTask(s, i, value), t, ret) == RunTask(Without(s, t, ret), i, value)
  {
    var u, x := s.workers[i].t, Without(s, t, ret);
    assert x.tasks[u] == s.tasks[u].(mutex := x.tasks[u].mutex) && x.workers == s.workers;
    assert Without(RunTask(s, i, value), t, ret).tasks == RunTask(x, i, value).tasks;
  }

  lemma PopWithout(s: State, i: nat, t: nat, ret: Ret)
    requires i < |s.workers| && t < |s.tasks|
    ensures |PopFront(s, i).tasks| == |s.tasks| && Without(PopFront(s, i), t, ret) == PopFront(Without(s, t, ret), i)
  {
    hide PopFront, Without;
    if s.size > 0 && Alive(s, s.head) && s.queue != [] { TakeWithout(s, i, t, ret); } else { NoTakeWithout(s, i, t, ret); }
  }

  /** Worker i has taken the head of the queue. */
  function Took(s: State, i: nat): State
    requires i < |s.workers| && Alive(s, s.head) && s.size > 0 && s.queue != []
  {
    var h := s.head;
    s.(tasks := s.tasks[h := s.tasks[h].(stage := Held(i))], workers := s.workers[i := SetRunning(h)],
       head := s.tasks[h].next, size := s.size - 1, queue := s.queue[1..])
  }

  lemma PopTakes(s: State, i: nat)
    requires i < |s.workers| && Alive(s, s.head) && s.size > 0 && s.queue != []
    ensures PopFront(s, i) == Took(s, i)
  {
  }

  lemma TookWithout(s: State, i: nat, t: nat, ret: Ret)
    requires i < |s.workers| && t < |s.tasks| && Alive(s, s.head) && s.size > 0 && s.queue != []
    ensures Alive(Without(s, t, ret), s.head) && Without(Took(s, i), t, ret) == Took(Without(s, t, ret), i)
  {
    assert Without(Took(s, i), t, ret).tasks == Took(Without(s, t, ret), i).tasks;
  }

  lemma TakeWithout(s: State, i: nat, t: nat, ret: Ret)
    requires i < |s.workers| && t < |s.tasks| && s.size > 0 && Alive(s, s.head) && s.queue != []
    ensures |PopFront(s, i).tasks| == |s.tasks| && Without(PopFront(s, i), t, ret) == PopFront(Without(s, t, ret), i)
  {
    hide PopFront;
    PopTakes(s, i);
    TookWithout(s, i, t, ret);
    PopTakes(Without(s, t, ret), i);
  }

  lemma NoTakeWithout(s: State, i: nat, t: nat, ret: Ret)
    requires i < |s.workers| && t < |s.tasks| && !(s.size > 0 && Alive(s, s.head) && s.queue != [])
    ensures |PopFront(s, i).tasks| == |s.tasks| && Without(PopFront(s, i), t, ret) == PopFront(Without(s, t, ret), i)
  {
  }

  lemma IdleWithout(s: State, i: nat, t: nat, ret: Ret)
    requires i < |s.workers| && t < |s.tasks| && !Holds(s.workers[i])
    ensures |WorkIdle(s, i).tasks| == |s.tasks| && Without(WorkIdle(s, i), t, ret) == WorkIdle(Without(s, t, ret), i)
  {
  }

  /** A step on a task, its mutex held by the client or not. */
  lemma TaskWithout(s: State, i: nat, t: nat, ret: Ret)
    requires i < |s.workers| && Holds(s.workers[i]) && !s.workers[i].Exec? && Alive(s, s.workers[i].t) && t < |s.tasks|
    requires s.workers[i].LockTask? || s.workers[i].FreeTask? ==> s.tasks[s.workers[i].t].mutex == Nobody
    ensures |WorkTask(s, i).tasks| == |s.tasks| && Without(WorkTask(s, i), t, ret) == WorkTask(Without(s, t, ret), i)
  {
    hide WorkTask, Worked, Without;
    WithoutKeeps(s, t, ret);
    WorkIsWorked(s, i);
    WorkIsWorked(Without(s, t, ret), i);
    WorkedWithout(s, i, t, ret);
  }

  lemma WithoutKeeps(s: State, t: nat, ret: Ret)
    requires t < |s.tasks|
    ensures Without(s, t, ret).workers == s.workers && |Without(s, t, ret).tasks| == |s.tasks|
    ensures forall u :: 0 <= u < |s.tasks| ==> Without(s, t, ret).tasks[u].stage == s.tasks[u].stage
  {
  }

  lemma WorkedWithout(s: State, i: nat, t: nat, ret: Ret)
    requires i < |s.workers| && Holds(s.workers[i]) && Alive(s, s.workers[i].t) && t < |s.tasks|
    requires s.workers[i].LockTask? || s.workers[i].FreeTask? ==> s.tasks[s.workers[i].t].mutex == Nobody
    ensures |Worked(s, i).tasks| == |s.tasks| && Alive(Without(s, t, ret), s.workers[i].t)
    ensures Without(Worked(s, i), t, ret) == Worked(Without(s, t, ret), i)
  {
    assert Without(Worked(s, i), t, ret).tasks == Worked(Without(s, t, ret), i).tasks;
  }

  lemma PoolStepWithout(s: State, e: Event, t: nat, ret: Ret)
    requires Inv(s) && Goes(s, e) && OfPool(e) && t < |s.tasks|
    ensures t < |Step(s, e).tasks| && Goes(Without(s, t, ret), e) && Without(Step(s, e), t, ret) == Step(Without(s, t, ret), e)
  {
    GoesFacts(s, e);
    StillGoes(s, e, t, ret);
    PoolSafe(s, e);
    hide Inv, Goes, Enabled, Allowed, Hazard, Without;
    if e.SpuriousWake? { WakeWithout(s, e.i, t, ret); }
    else if e.Execute? { WorkerRuns(s, e, t, ret); }
    else { WorkerWorks(s, e.i, t, ret); }
  }

  lemma StillGoes(s: State, e: Event, t: nat, ret: Ret)
    requires Goes(s, e) && OfPool(e) && t < |s.tasks|
    ensures Goes(Without(s, t, ret), e)
  {
  }

  /** What a step of the pool relies on. */
  ghost predicate Safe(s: State, e: Event)
    requires OfPool(e)
  {
    && e.i < |s.workers| && Enabled(s, e) && (e.Work? ==> !s.poolFreed)
    && (Holds(s.workers[e.i]) ==> Alive(s, s.workers[e.i].t))
    && (s.workers[e.i].LockTask? || s.workers[e.i].FreeTask? ==> s.tasks[s.workers[e.i].t].mutex == Nobody)
  }

  lemma PoolSafe(s: State, e: Event)
    requires Inv(s) && Enabled(s, e) && OfPool(e)
    ensures Safe(s, e)
  {
    PoolAlive(s, e.i);
    assert WorkerOk(s, e.i);
  }

  lemma WakeWithout(s: State, i: nat, t: nat, ret: Ret)
    requires i < |s.workers| && t < |s.tasks|
    ensures Without(SetWorker(s, i, Woken), t, ret) == SetWorker(Without(s, t, ret), i, Woken)
  {
  }

  lemma WorkerRuns(s: State, e: Event, t: nat, ret: Ret)
    requires e.Execute? && t < |s.tasks| && Safe(s, e) && Enabled(s, e) && Enabled(Without(s, t, ret), e)
    ensures t < |Step(s, e).tasks| && Without(Step(s, e), t, ret) == Step(Without(s, t, ret), e)
  {
    hide RunTask, Without;
    ExecuteWithout(s, e.i, e.value, t, ret);
  }

  lemma WorkerWorks(s: State, i: nat, t: nat, ret: Ret)
    requires t < |s.tasks| && Safe(s, Work(i)) && Enabled(s, Work(i)) && Enabled(Without(s, t, ret), Work(i))
    ensures t < |Step(s, Work(i)).tasks| && Without(Step(s, Work(i)), t, ret) == Step(Without(s, t, ret), Work(i))
  {
    hide WorkTask, WorkIdle, PopFront;
    if s.workers[i].Pop? { PopWithout(s, i, t, ret); }
    else if Holds(s.workers[i]) { TaskWithout(s, i, t, ret); }
    else { IdleWithout(s, i, t, ret); }
  }

  // ---------------------------------------------------------------- a run

  /** The steps of the pool among these. */
  function PoolSteps(events: seq<Event>): seq<Event> {
    if events == [] then []
    else if OfPool(events[0]) then [events[0]] + PoolSteps(events[1..])
    else PoolSteps(events[1..])
  }

  /** The client's own steps on the way to a timeout change nothing but the mutex. */
  lemma ClientStepWithout(s: State, e: Event, t: nat, ret: Ret)
    requires Inv(s) && Goes(s, e) && InJoin(e) && !OfPool(e) && t < |s.tasks| && MayTimeOut(s, t)
    ensures var s' := Step(s, e);
            NoTimeout(s') || (MayTimeOut(s', t) && t < |s'.tasks| && Without(s', t, ret) == Without(s, t, ret))
  {
    hide StepPush, StepDetach, StepPool, StatusOk, CountOk, WorkerOk;
    var c := s.client;
    if e.ClientStep? {
      ClientAlive(s, t);
      JoinWithout(s, t, ret);
    }
  }

  lemma ClientAlive(s: State, t: nat)
    requires Inv(s) && t < |s.tasks| && MayTimeOut(s, t) && !s.client.Idle?
    ensures Alive(s, t) && (InTaskClient(s.client) <==> s.tasks[t].mutex == ByClient)
  {
    assert TaskOk(s, t);
  }

  lemma JoinWithout(s: State, t: nat, ret: Ret)
    requires Alive(s, t) && Enabled(s, ClientStep) && MayTimeOut(s, t) && !s.client.Idle?
    requires InTaskClient(s.client) ==> s.tasks[t].mutex == ByClient
    ensures var s' := StepJoin(s);
            NoTimeout(s') || (MayTimeOut(s', t) && t < |s'.tasks| && Without(s', t, ret) == Without(s, t, ret))
  {
    hide StepJoin, Without, NoTimeout;
    if s.client.JoinCheck? { CheckWithout(s, t, ret); }
    else if s.client.JoinTest? { TestWithout(s, t, ret); }
    else { LockWithout(s, t, ret); }
  }

  lemma CheckWithout(s: State, t: nat, ret: Ret)
    requires Alive(s, t) && Enabled(s, ClientStep) && MayTimeOut(s, t) && s.client.JoinCheck?
    requires InTaskClient(s.client) ==> s.tasks[t].mutex == ByClient
    ensures var s' := StepJoin(s);
            NoTimeout(s') || (MayTimeOut(s', t) && t < |s'.tasks| && Without(s', t, ret) == Without(s, t, ret))
  {
    assert Without(StepJoin(s), t, ret).tasks == Without(s, t, ret).tasks;
  }

  lemma TestWithout(s: State, t: nat, ret: Ret)
    requires Alive(s, t) && Enabled(s, ClientStep) && MayTimeOut(s, t) && s.client.JoinTest?
    requires InTaskClient(s.client) ==> s.tasks[t].mutex == ByClient
    ensures var s' := StepJoin(s);
            NoTimeout(s') || (MayTimeOut(s', t) && t < |s'.tasks| && Without(s', t, ret) == Without(s, t, ret))
  {
    assert Without(StepJoin(s), t, ret).tasks == Without(s, t, ret).tasks;
  }

  lemma LockWithout(s: State, t: nat, ret: Ret)
    requires Alive(s, t) && Enabled(s, ClientStep) && MayTimeOut(s, t) && (s.client.JoinLock? || s.client.JoinRelock? || s.client.JoinUnlock?)
    requires InTaskClient(s.client) ==> s.tasks[t].mutex == ByClient
    ensures var s' := StepJoin(s);
            NoTimeout(s') || (MayTimeOut(s', t) && t < |s'.tasks| && Without(s', t, ret) == Without(s, t, ret))
  {
    assert Without(StepJoin(s), t, ret).tasks == Without(s, t, ret).tasks;
  }

  lemma PoolStepClient(s: State, e: Event, t: nat)
    requires Goes(s, e) && OfPool(e)
    ensures Step(s, e).ret == s.ret && (MayTimeOut(s, t) ==> MayTimeOut(Step(s, e), t) || NoTimeout(Step(s, e)))
    ensures NoTimeout(s) ==> NoTimeout(Step(s, e))
  {
    hide Step;
    OnlyBroadcasts(s, e);
  }

  lemma OnlyBroadcasts(s: State, e: Event)
    requires Enabled(s, e) && OfPool(e)
    ensures Step(s, e).ret == s.ret
    ensures Step(s, e).client == s.client || (s.client.JoinAsleep? && Step(s, e).client == JoinRelock(s.client.t, false))
  {
    hide WorkTask;
    if e.Work? && Holds(s.workers[e.i]) {
      if Alive(s, s.workers[e.i].t) { WorkIsWorked(s, e.i); } else { DeadWork(s, e.i); }
    }
  }

  lemma NoTimeoutStays(s: State, e: Event)
    requires Inv(s) && Goes(s, e) && InJoin(e) && !OfPool(e) && NoTimeout(s)
    ensures NoTimeout(Step(s, e))
  {
    hide StepPush, StepDetach, StepPool, TaskOk, WorkerOk;
  }

  /** The join on the way to its result returns that. */
  lemma {:induction false} NeverTimesOut(s: State, events: seq<Event>)
    requires Inv(s) && NoTimeout(s) && IsRun(s, events) && forall k :: 0 <= k < |events| ==> InJoin(events[k])
    ensures NoTimeout(Run(s, events))
    decreases |events|
  {
    hide Inv, Step, Goes, NoTimeout, Enabled, Allowed, Hazard;
    if events != [] {
      var e := events[0];
      assert InJoin(e);
      GoesFacts(s, e);
      StepInv(s, e);
      if OfPool(e) { PoolStepClient(s, e, 0); } else { NoTimeoutStays(s, e); }
      NeverTimesOut(Step(s, e), events[1..]);
    }
  }

  lemma NotTimedOut(s: State)
    requires NoTimeout(s)
    ensures !(s.client.Idle? && s.ret == Timeout)
  {
  }

  /** Leaving out the call and its steps leaves a run of the pool, to the same state. */
  lemma {:induction false} RunWithout(s: State, events: seq<Event>, t: nat, ret: Ret)
    requires Inv(s) && MayTimeOut(s, t) && t < |s.tasks| && IsRun(s, events) && forall k :: 0 <= k < |events| ==> InJoin(events[k])
    requires Run(s, events).client.Idle? && Run(s, events).ret == Timeout
    ensures t < |Run(s, events).tasks| && PoolRun(Without(s, t, ret), PoolSteps(events))
    ensures Run(Without(s, t, ret), PoolSteps(events)) == Without(Run(s, events), t, ret)
    decreases |events|
  {
    hide Inv, Step, Goes, Without, MayTimeOut, NoTimeout, Enabled, Allowed, Hazard;
    if events != [] {
      var e, rest := events[0], events[1..];
      assert InJoin(e);
      GoesFacts(s, e);
      var s' := Step(s, e);
      StepInv(s, e);
      if OfPool(e) { PoolStepClient(s, e, t); PoolStepWithout(s, e, t, ret); } else { ClientStepWithout(s, e, t, ret); }
      if NoTimeout(s') {
        NeverTimesOut(s', rest);
        NotTimedOut(Run(s', rest));
      } else {
        RunWithout(s', rest, t, ret);
        if OfPool(e) { PoolRunCons(Without(s, t, ret), e, PoolSteps(rest)); }
      }
    }
  }

  /** A run within one timed join of t. */
  ghost predicate TimedJoinCall(s: State, t: nat, events: seq<Event>) {
    && events != [] && events[0] == Start(TimedJoin(t)) && IsRun(s, events)
    && forall k :: 1 <= k < |events| ==> InJoin(events[k])
  }

  /**
   A timed join that returns Timeout has changed nothing: without the call, the same
   steps of the workers lead to the same state. The task is still the client's to join.
   */
  lemma TimeoutChangesNothing(s: State, t: nat, events: seq<Event>)
    requires Reachable(s) && s.client.Idle? && TimedJoinCall(s, t, events)
    requires Run(s, events).client.Idle? && Run(s, events).ret == Timeout
    ensures var r := Run(s, events);
            && PoolRun(s, PoolSteps(events)) && Run(s, PoolSteps(events)) == r.(ret := s.ret)
            && Goes(r, Start(Join(t))) && Goes(r, Start(TimedJoin(t)))
  {
    ReachableInv(s);
    hide Inv, Step, Goes, Without, MayTimeOut, Enabled, Allowed, Hazard;
    var r, steps := Run(s, events), PoolSteps(events);
    JoinStarts(s, t);
    var s1 := Step(s, events[0]);
    RunWithout(s1, events[1..], t, s.ret);
    WithoutNothing(s, s1, t);
    RunInv(s1, events[1..]);
    WithoutNothing(r, r, t);
    MineStays(s, steps, t);
    JoinsAgain(r, t);
  }

  lemma JoinStarts(s: State, t: nat)
    requires Inv(s) && s.client.Idle? && Goes(s, Start(TimedJoin(t)))
    ensures Enabled(s, Start(TimedJoin(t))) && t < |s.tasks| && s.tasks[t].mine
    ensures var s1 := Step(s, Start(TimedJoin(t))); Inv(s1) && MayTimeOut(s1, t) && s1 == s.(client := JoinCheck(t, true))
  {
    StepInv(s, Start(TimedJoin(t)));
  }

  lemma JoinsAgain(s: State, t: nat)
    requires s.client.Idle? && t < |s.tasks| && s.tasks[t].mine
    ensures Goes(s, Start(Join(t))) && Goes(s, Start(TimedJoin(t)))
  {
  }

  lemma KeepsMine(s: State, e: Event, t: nat)
    requires Inv(s) && Goes(s, e) && OfPool(e) && t < |s.tasks|
    ensures t < |Step(s, e).tasks| && Step(s, e).tasks[t].mine == s.tasks[t].mine
  {
    PoolSafe(s, e);
    if e.Work? && Holds(s.workers[e.i]) {
      WorkIsWorked(s, e.i);
    }
    hide Inv, WorkTask;
  }

  lemma {:induction false} MineStays(s: State, events: seq<Event>, t: nat)
    requires Inv(s) && PoolRun(s, events) && t < |s.tasks|
    ensures t < |Run(s, events).tasks| && Run(s, events).tasks[t].mine == s.tasks[t].mine
    decreases |events|
  {
    hide Inv, Step, Goes, Enabled, Allowed, Hazard;
    if events != [] {
      assert OfPool(events[0]);
      GoesFacts(s, events[0]);
      StepInv(s, events[0]);
      KeepsMine(s, events[0], t);
      MineStays(Step(s, events[0]), events[1..], t);
    }
  }

  /** Between calls no mutex is the client's. */
  lemma WithoutNothing(s: State, s1: State, t: nat)
    requires Inv(s) && s.client.Idle? && t < |s.tasks| && s1 == s.(client := s1.client, ret := s1.ret)
    ensures forall ret :: Without(s1, t, ret) == s.(ret := ret)
  {
    assert TaskOk(s, t);
    assert s.tasks[t := s.tasks[t]] == s.tasks;
  }
}
