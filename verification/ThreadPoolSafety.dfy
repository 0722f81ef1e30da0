/** What the invariant says of every run of the thread pool. */
module ThreadPoolSafety {
  import opened ThreadPool
  import opened ThreadPoolInvariant

  // ---------------------------------------------------------------- runs

  /** A step that can happen, within the client's rules, and destroys no mutex that is held. */
  predicate Goes(s: State, e: Event) { Enabled(s, e) && Allowed(s, e) && !Hazard(s, e) }

  ghost predicate IsRun(s: State, events: seq<Event>)
    decreases |events|
  {
    events == [] || (Goes(s, events[0]) && IsRun(Step(s, events[0]), events[1..]))
  }

  ghost function Run(s: State, events: seq<Event>): State
    requires IsRun(s, events)
    decreases |events|
  {
    if events == [] then s else Run(Step(s, events[0]), events[1..])
  }

  lemma {:induction false} RunInv(s: State, events: seq<Event>)
    requires Inv(s) && IsRun(s, events)
    ensures Inv(Run(s, events))
    decreases |events|
  {
    if events != [] {
      StepInv(s, events[0]);
      RunInv(Step(s, events[0]), events[1..]);
    }
  }

  /** A state some interleaving leads to from a new pool. */
  ghost predicate Reachable(s: State) {
    exists n: int, events: seq<Event> :: |New(n)| == 1 && IsRun(New(n)[0], events) && s == Run(New(n)[0], events)
  }

  lemma ReachableInv(s: State)
    requires Reachable(s)
    ensures Inv(s)
  {
    var n: int, events: seq<Event> :| |New(n)| == 1 && IsRun(New(n)[0], events) && s == Run(New(n)[0], events);
    RunInv(New(n)[0], events);
  }

  // ---------------------------------------------------------------- orderly clients

  /** The client deletes a task only outside the pool or when a worker is through with it. */
  ghost predicate IsOrderly(s: State, events: seq<Event>)
    decreases |events|
  {
    events == [] || (Enabled(s, events[0]) && Orderly(s, events[0]) && IsOrderly(Step(s, events[0]), events[1..]))
  }

  ghost predicate Tidy(s: State) {
    Deleting(s.client) ==> s.client.t < |s.tasks| && (s.tasks[s.client.t].stage == Own || s.tasks[s.client.t].stage == Done)
  }

  lemma OrderlyStep(s: State, e: Event)
    requires Inv(s) && Tidy(s) && Enabled(s, e) && Orderly(s, e)
    ensures !Hazard(s, e) && Tidy(Step(s, e))
  {
    if OnTask(s.client) { assert TaskOk(s, s.client.t); }
    if e.Work? || e.Execute? || e.SpuriousWake? {
      if Deleting(s.client) { KeepsOff(s, e, s.client.t); }
      hide Inv, TaskOk;
      WorkerOrClient(s, e);
    } else if e.ClientStep? {
      if Deleting(s.client) || s.client.DetachUnlockFree? { DeletingOn(s); } else { hide Inv, TaskOk; NotYetDeleting(s); }
    }
  }

  /** A step of a worker leaves the client where it is, or wakes it from its wait. */
  lemma WorkerOrClient(s: State, e: Event)
    requires Enabled(s, e) && (e.Work? || e.Execute? || e.SpuriousWake?)
    ensures Step(s, e).client == s.client || (s.client.JoinAsleep? && Step(s, e).client.JoinRelock?)
  {
  }

  lemma DeletingOn(s: State)
    requires Inv(s) && Tidy(s) && (Deleting(s.client) || s.client.DetachUnlockFree?)
    ensures !Hazard(s, ClientStep) && Tidy(StepClient(s))
  {
    NoHazard(s);
    InvAtClient(s);
    hide Inv, StepPush, StepJoin, StepPool, TaskOk;
    AliveClient(s);
  }

  lemma NoHazard(s: State)
    requires Inv(s) && Tidy(s) && (Deleting(s.client) || s.client.DetachUnlockFree?)
    ensures !Hazard(s, ClientStep)
  {
    var t := s.client.t;
    assert TaskOk(s, t);
    var m := s.tasks[t].mutex;
    assert m.ByWorker? && m.worker < |s.workers| ==> WorkerOk(s, m.worker);
  }

  lemma NotYetDeleting(s: State)
    requires Enabled(s, ClientStep) && !Deleting(s.client) && !s.client.DetachUnlockFree?
    ensures !Deleting(StepClient(s).client)
  {
    hide StepPush, StepJoin, StepDetach, StepPool;
    if s.client.PushCheck? || s.client.PushStatus? || s.client.PushQueue? || s.client.PushSpawn? { PushNotDeleting(s); }
    else if Joining(s.client) { JoinNotDeleting(s); }
    else if OnTask(s.client) { DetachNotDeleting(s); }
    else { PoolNotDeleting(s); }
  }

  lemma PushNotDeleting(s: State)
    requires s.client.PushCheck? || s.client.PushStatus? || s.client.PushQueue? || s.client.PushSpawn?
    ensures !Deleting(StepPush(s).client)
  {
  }

  lemma JoinNotDeleting(s: State)
    requires Joining(s.client)
    ensures !Deleting(StepJoin(s).client)
  {
  }

  lemma DetachNotDeleting(s: State)
    requires OnTask(s.client) && !Deleting(s.client) && !s.client.DetachUnlockFree?
    ensures !Deleting(StepDetach(s).client)
  {
  }

  lemma PoolNotDeleting(s: State)
    requires !Deleting(s.client)
    ensures !Deleting(StepPool(s).client)
  {
  }

  /** Such a client never meets the hazard, so that all that holds of runs holds of its runs, whatever the interleaving. */
  lemma {:induction false} OrderlyIsRun(s: State, events: seq<Event>)
    requires Inv(s) && Tidy(s) && IsOrderly(s, events)
    ensures IsRun(s, events) && Inv(Run(s, events)) && Tidy(Run(s, events))
    decreases |events|
  {
    if events != [] {
      OrderlyStep(s, events[0]);
      StepInv(s, events[0]);
      OrderlyIsRun(Step(s, events[0]), events[1..]);
    }
  }

  /** With an orderly client no step ever touches freed memory. */
  lemma OrderlyNeverFaults(n: int, events: seq<Event>)
    requires |New(n)| == 1 && IsOrderly(New(n)[0], events)
    ensures IsRun(New(n)[0], events) && Reachable(Run(New(n)[0], events)) && !Run(New(n)[0], events).fault
  {
    OrderlyIsRun(New(n)[0], events);
  }

  // ---------------------------------------------------------------- tasks, queue and workers

  /**
   In every interleaving: no step touches freed memory; each push of a task has led to
   one execution or to none yet, and then the task is in the queue, once, or with one
   worker that is about to run it; the linked queue is a FIFO sequence within its bound;
   the counter of running tasks counts the workers between its increment and decrement.
   */
  lemma EveryPushRunsAtMostOnce(s: State)
    requires Reachable(s)
    ensures !s.fault
    ensures forall t :: 0 <= t < |s.tasks| ==>
              var k := s.tasks[t];
              && |k.results| <= k.pushes <= |k.results| + 1
              && (k.pushes == |k.results| + 1 <==>
                    t in s.queue || exists i :: 0 <= i < |s.workers| && BeforeRun(s.workers[i]) && s.workers[i].t == t)
              && (t in s.queue ==> forall i :: 0 <= i < |s.workers| && Holds(s.workers[i]) ==> s.workers[i].t != t)
    ensures forall i, j :: 0 <= i < j < |s.workers| && Holds(s.workers[i]) && Holds(s.workers[j]) ==> s.workers[i].t != s.workers[j].t
    ensures forall j, k :: 0 <= j < k < |s.queue| ==> s.queue[j] != s.queue[k]
    ensures |s.queue| == s.size <= TPOOL_MAX_TASKS && (s.size > 0 ==> s.head == s.queue[0] && s.tail == s.queue[s.size - 1])
    ensures forall j :: 0 <= j < |s.queue| - 1 ==> s.queue[j] < |s.tasks| && s.tasks[s.queue[j]].next == s.queue[j + 1]
    ensures s.running == CountRunning(s.workers) && s.threads == |s.workers| <= s.maxThreads <= TPOOL_MAX_THREADS
  {
    ReachableInv(s);
    hide ClientOk, StatusOk, CountRunning;
    assert QueueOk(s);
    forall i | 0 <= i < |s.workers| && Holds(s.workers[i]) ensures s.workers[i].t < |s.tasks| && s.tasks[s.workers[i].t].stage == Held(i) {
      assert WorkerOk(s, i);
    }
    forall t | 0 <= t < |s.tasks|
      ensures var k := s.tasks[t];
              && |k.results| <= k.pushes <= |k.results| + 1
              && (k.pushes == |k.results| + 1 <==>
                    t in s.queue || exists i :: 0 <= i < |s.workers| && BeforeRun(s.workers[i]) && s.workers[i].t == t)
              && (t in s.queue ==> forall i :: 0 <= i < |s.workers| && Holds(s.workers[i]) ==> s.workers[i].t != t)
    {
      assert TaskOk(s, t);
    }
  }

  /** Steps of workers leave alone a task that is outside the pool, freed, or done. */
  lemma WorkersKeepOff(s: State, e: Event, t: nat)
    requires Reachable(s) && Enabled(s, e) && (e.Work? || e.Execute? || e.SpuriousWake?)
    requires t < |s.tasks| && (s.tasks[t].stage == Own || s.tasks[t].stage == Done || s.tasks[t].stage == Dead)
    ensures t < |Step(s, e).tasks| && Step(s, e).tasks[t] == s.tasks[t]
  {
    ReachableInv(s);
    KeepsOff(s, e, t);
  }

  lemma KeepsOff(s: State, e: Event, t: nat)
    requires Inv(s) && Enabled(s, e) && (e.Work? || e.Execute? || e.SpuriousWake?)
    requires t < |s.tasks| && (s.tasks[t].stage == Own || s.tasks[t].stage == Done || s.tasks[t].stage == Dead)
    ensures t < |Step(s, e).tasks| && Step(s, e).tasks[t] == s.tasks[t]
  {
    if e.Work? && Holds(s.workers[e.i]) { WorkElsewhere(s, e.i); }
    if e.Execute? { ExecuteElsewhere(s, e.i, e.value); }
    hide Inv, WorkTask, RunTask;
    PoolStillThere(s, e);
  }

  lemma ExecuteElsewhere(s: State, i: nat, value: int)
    requires Inv(s) && Enabled(s, Execute(i, value))
    ensures OnlyAt(s, RunTask(s, i, value), i, s.workers[i].t)
    ensures s.workers[i].t < |s.tasks| && s.tasks[s.workers[i].t].stage == Held(i)
  {
    InvAtWorker(s, i);
    RunWork(s, i, value);
  }

  lemma PoolStillThere(s: State, e: Event)
    requires Inv(s) && Enabled(s, e)
    ensures e.Work? ==> !s.poolFreed
    ensures s.size > 0 ==> s.head < |s.tasks| && s.tasks[s.head].stage == Queued
    ensures s.queue == [] <==> s.size == 0
  {
    assert QueueOk(s);
  }

  /** A push puts its task behind all others and leaves no worker asleep. */
  lemma PushIsLastIn(s: State)
    requires Reachable(s) && s.client.PushQueue? && Enabled(s, ClientStep)
    ensures var s' := Step(s, ClientStep);
            && s'.queue == s.queue + [s.client.t] && s.client.t !in s.queue
            && |s'.workers| == |s.workers| && forall i :: 0 <= i < |s.workers| ==> !s'.workers[i].Asleep?
  {
    ReachableInv(s);
    assert TaskOk(s, s.client.t);
    assert QueueOk(s);
  }

  /** A worker gets the task that has been in the queue longest. */
  lemma PopIsFirstOut(s: State, i: nat)
    requires Reachable(s) && i < |s.workers| && s.workers[i].Pop? && Enabled(s, Work(i))
    ensures var s' := Step(s, Work(i));
            if s.queue == [] then s' == SetWorker(s, i, IdleLock)
            else |s'.workers| == |s.workers| && s'.workers[i] == SetRunning(s.queue[0]) && s'.queue == s.queue[1..]
  {
    ReachableInv(s);
    PoolStillThere(s, Work(i));
    assert QueueOk(s);
    if s.queue != [] { assert TaskOk(s, s.queue[0]); }
  }

  // ---------------------------------------------------------------- join

  /**
   thread_task_join returns what the execution for the last push returned, and from
   then on no worker touches the task until it is pushed again.
   */
  lemma JoinReturnsResult(s: State)
    requires Reachable(s) && s.client.JoinRead?
    ensures var s' := Step(s, ClientStep);
            var t := s.client.t;
            && t < |s.tasks| && |s.tasks[t].results| == s.tasks[t].pushes > 0
            && s'.ret == JoinOk(t, s.tasks[t].results[s.tasks[t].pushes - 1])
            && s'.tasks[t].stage == Own && s'.client == Idle
  {
    ReachableInv(s);
    assert TaskOk(s, s.client.t);
  }

  /** A joiner that waits for a finished task has its broadcast coming: the worker still holds the mutex to send it. */
  lemma NoLostJoin(s: State)
    requires Reachable(s) && s.client.JoinAsleep? && s.client.t < |s.tasks| && s.tasks[s.client.t].status == Finished
    ensures var k := s.tasks[s.client.t];
            k.stage.Held? && k.stage.worker < |s.workers| && s.workers[k.stage.worker] == Broadcast(s.client.t)
            && k.mutex == ByWorker(k.stage.worker)
  {
    ReachableInv(s);
    var t := s.client.t;
    assert TaskOk(s, t);
    assert WorkerOk(s, s.tasks[t].stage.worker);
  }

  // ---------------------------------------------------------------- detach

  /** A task the client has given away is freed, or marked and on its way through the queue and one worker. */
  lemma GivenAway(s: State, t: nat)
    requires Reachable(s) && t < |s.tasks| && !s.tasks[t].mine
    ensures s.tasks[t].stage == Dead ||
            (s.tasks[t].detached && (t in s.queue || exists i :: 0 <= i < |s.workers| && Holds(s.workers[i]) && s.workers[i].t == t))
  {
    ReachableInv(s);
    assert TaskOk(s, t);
  }

  /** When a worker lets go of its task, a detached one has been freed and any other waits to be joined. */
  lemma WorkerLetsGo(s: State, i: nat)
    requires Reachable(s) && Enabled(s, Work(i)) && Holds(s.workers[i])
    requires var s' := Step(s, Work(i)); i < |s'.workers| && !Holds(s'.workers[i])
    ensures var t := s.workers[i].t;
            && t < |s.tasks| && t < |Step(s, Work(i)).tasks|
            && Step(s, Work(i)).tasks[t].stage == if s.tasks[t].detached then Dead else Done
  {
    ReachableInv(s);
    assert WorkerOk(s, i);
    assert TaskOk(s, s.workers[i].t);
    assert !s.poolFreed;
  }

  /** A freed task stays as it is: nothing frees it again. */
  lemma {:induction false} FreedOnce(s: State, events: seq<Event>, t: nat)
    requires Reachable(s) && Inv(s) && IsRun(s, events) && t < |s.tasks| && s.tasks[t].stage == Dead
    ensures t < |Run(s, events).tasks| && Run(s, events).tasks[t] == s.tasks[t] && !Run(s, events).fault
    decreases |events|
  {
    if events != [] {
      FreedStep(s, events[0], t);
      StepInv(s, events[0]);
      ReachableStep(s, events[0]);
      FreedOnce(Step(s, events[0]), events[1..], t);
    }
  }

  lemma FreedStep(s: State, e: Event, t: nat)
    requires Reachable(s) && Inv(s) && Goes(s, e) && t < |s.tasks| && s.tasks[t].stage == Dead
    ensures t < |Step(s, e).tasks| && Step(s, e).tasks[t] == s.tasks[t]
  {
    if e.Work? || e.Execute? || e.SpuriousWake? {
      WorkersKeepOff(s, e, t);
    } else {
      assert TaskOk(s, t);
      if OnTask(s.client) { OnOwnTask(s); }
      if s.client.PushQueue? { PushBackFacts(s, PushBack(s, s.client.t)); }
      else if e.ClientStep? && OnTask(s.client) && !s.client.PushSpawn? { ClientElsewhere(s); }
      hide Inv, TaskOk, StepJoin, StepDetach, PushBack;
    }
  }

  lemma OnOwnTask(s: State)
    requires Inv(s) && OnTask(s.client)
    ensures s.client.t < |s.tasks| && s.tasks[s.client.t].mine && s.tasks[s.client.t].stage != Dead
  {
    assert TaskOk(s, s.client.t);
  }

  lemma ReachableStep(s: State, e: Event)
    requires Reachable(s) && Goes(s, e)
    ensures Reachable(Step(s, e))
  {
    var n: int, events: seq<Event> :| |New(n)| == 1 && IsRun(New(n)[0], events) && s == Run(New(n)[0], events);
    RunAppend(New(n)[0], events, e);
  }

  lemma {:induction false} RunAppend(s: State, events: seq<Event>, e: Event)
    requires IsRun(s, events) && Goes(Run(s, events), e)
    ensures IsRun(s, events + [e]) && Run(s, events + [e]) == Step(Run(s, events), e)
    decreases |events|
  {
    if events == [] {
      assert [e][1..] == [];
    } else {
      RunAppend(Step(s, events[0]), events[1..], e);
      assert (events + [e])[1..] == events[1..] + [e];
    }
  }

  // ---------------------------------------------------------------- deleting the pool

  /** When thread_pool_delete has succeeded, every worker has ended, the queue is empty and each push has been executed. */
  lemma DeletedPoolHasRunEverything(s: State)
    requires Reachable(s) && s.poolFreed
    ensures forall i :: 0 <= i < |s.workers| ==> s.workers[i].Exited?
    ensures s.queue == []
    ensures forall t :: 0 <= t < |s.tasks| ==> s.tasks[t].pushes == |s.tasks[t].results|
  {
    ReachableInv(s);
    forall t | 0 <= t < |s.tasks| ensures s.tasks[t].pushes == |s.tasks[t].results| {
      assert TaskOk(s, t);
    }
  }
}
