/**
 What the calls of the thread pool answer, in every interleaving: exactly when one is
 refused, from what it finds when it looks, and that a refused call changes nothing.
 */
module ThreadPoolAnswers {
  import opened ThreadPool
  import opened ThreadPoolInvariant
  import opened ThreadPoolSafety
  import opened ThreadPoolProgress
  import opened ThreadPoolRules
  import opened ThreadPoolTimeouts

  // ---------------------------------------------------------------- runs within a call

  lemma {:induction false} RunSplit(s: State, x: seq<Event>, y: seq<Event>)
    requires IsRun(s, x + y)
    ensures IsRun(s, x) && IsRun(Run(s, x), y) && Run(s, x + y) == Run(Run(s, x), y)
    decreases |x|
  {
    hide Goes, Step;
    if x == [] {
      assert x + y == y;
    } else {
      assert (x + y)[0] == x[0] && (x + y)[1..] == x[1..] + y;
      GoesFacts(s, x[0]);
      RunSplit(Step(s, x[0]), x[1..], y);
    }
  }

  predicate AllOfPool(events: seq<Event>) { forall k :: 0 <= k < |events| ==> OfPool(events[k]) }

  predicate AllInCall(events: seq<Event>) { forall k :: 0 <= k < |events| ==> InJoin(events[k]) }

  /** A call that starts, steps of the pool, the first step of the call, and what comes then within it. */
  ghost predicate CallRun(s: State, call: Call, before: seq<Event>, after: seq<Event>) {
    && s.client.Idle? && AllOfPool(before) && AllInCall(after)
    && IsRun(s, [Start(call)] + (before + ([ClientStep] + after)))
  }

  /** The call as it has just started. */
  function Called(call: Call): Client {
    match call
    case Push(t) => PushCheck(t)
    case Join(t) => JoinCheck(t, false)
    case TimedJoin(t) => JoinCheck(t, true)
    case Detach(t) => DetachCheck(t)
    case Delete(t) => DeleteCheckFree(t)
    case DeletePool => PoolCheckSize
  }

  /** The state in which the call takes its first step: without the call it would be `u`. */
  lemma Looks(s: State, call: Call, before: seq<Event>, after: seq<Event>) returns (u: State)
    requires Inv(s) && CallRun(s, call, before, after)
    ensures PoolRun(s, before) && u == Run(s, before) && u.client.Idle? && u.ret == s.ret && Inv(u)
    ensures var look := u.(client := Called(call));
            && Inv(look) && Goes(look, ClientStep) && IsRun(Step(look, ClientStep), after) && Inv(Step(look, ClientStep))
            && Run(s, [Start(call)] + (before + ([ClientStep] + after))) == Run(Step(look, ClientStep), after)
            && Allowed(s, Start(call))
  {
    hide Goes, Step, Inv, Enabled, Allowed, Hazard;
    var rest := before + ([ClientStep] + after);
    RunSplit(s, [Start(call)], rest);
    OneStep(s, Start(call));
    StartsCall(s, call);
    StepInv(s, Start(call));
    var s1 := s.(client := Called(call));
    RunSplit(s1, before, [ClientStep] + after);
    RunBeside(s1, before, Idle, s.ret);
    assert s1.(client := Idle, ret := s.ret) == s;
    u := Run(s, before);
    RunBeside(s, before, Called(call), s.ret);
    RunInv(s, before);
    RunInv(s1, before);
    var look := u.(client := Called(call));
    RunSplit(look, [ClientStep], after);
    OneStep(look, ClientStep);
    StepInv(look, ClientStep);
  }

  lemma OneStep(s: State, e: Event)
    requires IsRun(s, [e])
    ensures Goes(s, e) && Enabled(s, e) && Allowed(s, e) && !Hazard(s, e) && Run(s, [e]) == Step(s, e)
  {
    assert [e][1..] == [];
  }

  lemma StartsCall(s: State, call: Call)
    requires s.client.Idle?
    ensures Enabled(s, Start(call)) && Step(s, Start(call)) == s.(client := Called(call))
  {
  }

  /** Between calls only the pool takes steps. */
  lemma {:induction false} IdleRun(s: State, events: seq<Event>)
    requires s.client.Idle? && IsRun(s, events) && AllInCall(events)
    ensures PoolRun(s, events) && Run(s, events).client.Idle? && Run(s, events).ret == s.ret
    decreases |events|
  {
    hide Goes, Step;
    if events != [] {
      assert InJoin(events[0]);
      IdleGoes(s, events[0]);
      GoesFacts(s, events[0]);
      StepBeside(s, events[0], Idle, s.ret);
      IdleRun(Step(s, events[0]), events[1..]);
      assert events == [events[0]] + events[1..];
      PoolRunCons(s, events[0], events[1..]);
    }
  }

  lemma IdleGoes(s: State, e: Event)
    requires s.client.Idle? && Goes(s, e) && InJoin(e)
    ensures OfPool(e)
  {
  }

  /** A call that returns x from its first step: without it, the same steps of the pool lead to the same state. */
  ghost predicate Refuses(s: State, r: State, before: seq<Event>, after: seq<Event>, x: Ret) {
    r.client.Idle? && r.ret == x && PoolRun(s, before + after) && Run(s, before + after) == r.(ret := s.ret)
  }

  lemma FirstStepRefuses(s: State, u: State, before: seq<Event>, after: seq<Event>, x: Ret)
    requires PoolRun(s, before) && u == Run(s, before) && u.client.Idle? && u.ret == s.ret
    requires IsRun(u.(ret := x), after) && AllInCall(after)
    ensures Refuses(s, Run(u.(ret := x), after), before, after, x)
  {
    hide Goes, Step;
    var v := u.(ret := x);
    IdleRun(v, after);
    RunBeside(v, after, Idle, s.ret);
    assert v.(client := Idle, ret := s.ret) == u;
    PoolRunConcat(s, before, after);
  }

  // ---------------------------------------------------------------- push

  lemma QueueSize(s: State)
    requires Inv(s)
    ensures s.size == |s.queue| <= 100000
  {
  }

  lemma PushLooks(u: State, t: nat)
    requires Inv(u.(client := PushCheck(t)))
    ensures t < |u.tasks|
    ensures var v := StepClient(u.(client := PushCheck(t)));
            if |u.queue| == 100000 then v == u.(client := Idle, ret := TooManyTasks) else v == u.(client := PushStatus(t))
  {
    var s := u.(client := PushCheck(t));
    QueueSize(s);
    assert TaskOk(s, t);
  }

  /** Past its check: t has been pushed `pushes` times, or once more when it is in the queue. */
  ghost predicate Accepted(s: State, t: nat, pushes: nat) {
    && t < |s.tasks|
    && (((s.client == PushStatus(t) || s.client == PushQueue(t)) && s.tasks[t].pushes == pushes)
        || ((s.client == PushSpawn(t) || (s.client.Idle? && s.ret == PushOk(t))) && s.tasks[t].pushes == pushes + 1))
  }

  lemma PoolKeepsPushes(s: State, e: Event, t: nat)
    requires Inv(s) && Goes(s, e) && OfPool(e) && t < |s.tasks|
    ensures t < |Step(s, e).tasks| && Step(s, e).tasks[t].pushes == s.tasks[t].pushes
  {
    PoolSafe(s, e);
    if e.Work? && Holds(s.workers[e.i]) {
      WorkIsWorked(s, e.i);
    }
    hide Inv, WorkTask;
  }

  lemma AcceptedStep(s: State, e: Event, t: nat, pushes: nat)
    requires Inv(s) && Goes(s, e) && InJoin(e) && Accepted(s, t, pushes)
    ensures Accepted(Step(s, e), t, pushes)
  {
    GoesFacts(s, e);
    if OfPool(e) {
      PoolKeepsPushes(s, e, t);
      StepBeside(s, e, s.client, s.ret);
      hide Step, Inv;
    } else {
      PushGoesOn(s, e, t, pushes);
    }
  }

  lemma PushGoesOn(s: State, e: Event, t: nat, pushes: nat)
    requires Inv(s) && Enabled(s, e) && InJoin(e) && !OfPool(e) && Accepted(s, t, pushes)
    ensures Accepted(Step(s, e), t, pushes)
  {
    if s.client.PushQueue? {
      PushBackFacts(s, PushBack(s, t));
    }
  }

  lemma {:induction false} AcceptedRun(s: State, events: seq<Event>, t: nat, pushes: nat)
    requires Inv(s) && IsRun(s, events) && AllInCall(events) && Accepted(s, t, pushes)
    ensures Accepted(Run(s, events), t, pushes)
    decreases |events|
  {
    hide Goes, Step, Inv, Accepted, Enabled, Allowed, Hazard;
    if events != [] {
      assert InJoin(events[0]);
      GoesFacts(s, events[0]);
      StepInv(s, events[0]);
      AcceptedStep(s, events[0], t, pushes);
      AcceptedRun(Step(s, events[0]), events[1..], t, pushes);
    }
  }

  lemma {:induction false} PoolRunKeeps(s: State, events: seq<Event>, t: nat)
    requires Inv(s) && PoolRun(s, events) && t < |s.tasks| && s.tasks[t].mine
    ensures var r := Run(s, events);
            && t < |r.tasks| && r.tasks[t].pushes == s.tasks[t].pushes && r.tasks[t].mine
            && (r.tasks[t].status == Free <==> s.tasks[t].status == Free)
    decreases |events|
  {
    hide Inv, Step, Goes, Enabled, Allowed, Hazard;
    if events != [] {
      assert OfPool(events[0]);
      GoesFacts(s, events[0]);
      StepInv(s, events[0]);
      KeepsMine(s, events[0], t);
      PoolKeepsPushes(s, events[0], t);
      PoolKeepsFree(s, events[0], t);
      PoolRunKeeps(Step(s, events[0]), events[1..], t);
    }
  }

  /** Only a task that was given away is set free by a worker. */
  lemma PoolKeepsFree(s: State, e: Event, t: nat)
    requires Inv(s) && Goes(s, e) && OfPool(e) && t < |s.tasks| && s.tasks[t].mine
    ensures t < |Step(s, e).tasks| && (Step(s, e).tasks[t].status == Free <==> s.tasks[t].status == Free)
  {
    PoolSafe(s, e);
    assert TaskOk(s, t) && WorkerOk(s, e.i);
    if e.Work? && Holds(s.workers[e.i]) {
      WorkIsWorked(s, e.i);
    }
    hide Inv, WorkTask;
  }

  /**
   thread_pool_push_task answers that there are too many tasks exactly if it finds 100000
   in the queue, and then has done nothing. Otherwise it succeeds, and the task has been
   pushed once more.
   */
  lemma PushAnswers(s: State, t: nat, before: seq<Event>, after: seq<Event>)
    requires Reachable(s) && CallRun(s, Push(t), before, after)
    requires Run(s, [Start(Push(t))] + (before + ([ClientStep] + after))).client.Idle?
    ensures PoolRun(s, before) && |Run(s, before).queue| <= 100000
    ensures var r := Run(s, [Start(Push(t))] + (before + ([ClientStep] + after)));
            if |Run(s, before).queue| == 100000 then Refuses(s, r, before, after, TooManyTasks)
            else r.ret == PushOk(t) && t < |s.tasks| && t < |r.tasks| && r.tasks[t].pushes == s.tasks[t].pushes + 1
  {
    ReachableInv(s);
    hide Inv, Goes, Step, Refuses, CallRun;
    CallParts(s, Push(t), before, after);
    var u := Looks(s, Push(t), before, after);
    var look := u.(client := PushCheck(t));
    QueueSize(u);
    PushLooks(u, t);
    LookStep(look);
    MayPush(s, t);
    PoolRunKeeps(s, before, t);
    if |u.queue| == 100000 {
      FirstStepRefuses(s, u, before, after, TooManyTasks);
    } else {
      AcceptedRun(Step(look, ClientStep), after, t, s.tasks[t].pushes);
    }
  }

  lemma CallParts(s: State, call: Call, before: seq<Event>, after: seq<Event>)
    requires CallRun(s, call, before, after)
    ensures s.client.Idle? && AllOfPool(before) && AllInCall(after)
    ensures IsRun(s, [Start(call)] + (before + ([ClientStep] + after)))
  {
  }

  lemma LookStep(s: State)
    requires Goes(s, ClientStep)
    ensures Enabled(s, ClientStep) && Step(s, ClientStep) == StepClient(s)
  {
  }

  lemma MayPush(s: State, t: nat)
    requires Allowed(s, Start(Push(t)))
    ensures t < |s.tasks| && s.tasks[t].mine
  {
  }

  // ---------------------------------------------------------------- join

  lemma JoinLooksAt(u: State, t: nat, timed: bool)
    requires Inv(u.(client := JoinCheck(t, timed)))
    ensures t < |u.tasks|
    ensures var v := StepClient(u.(client := JoinCheck(t, timed)));
            if u.tasks[t].status == Free then v == u.(client := Idle, ret := TaskNotPushed) else v == u.(client := JoinLock(t, timed))
  {
    assert TaskOk(u.(client := JoinCheck(t, timed)), t);
  }

  /** In a join of t past its check; `expired` if its time has run out. */
  predicate Answering(s: State, t: nat, expired: bool) {
    var c := s.client;
    || ((c.JoinLock? || c.JoinTest? || c.JoinAsleep? || c.JoinStore? || c.JoinRead?) && c.t == t && !expired)
    || ((c.JoinRelock? || c.JoinUnlock?) && c.t == t && c.late == expired)
    || (c.Idle? && if expired then s.ret == Timeout else s.ret.JoinOk? && s.ret.t == t)
  }

  lemma AnsweringStep(s: State, e: Event, t: nat, expired: bool)
    requires Inv(s) && Goes(s, e) && InJoin(e) && Answering(s, t, expired)
    ensures Answering(Step(s, e), t, expired || e.Expire?) && (e.Expire? ==> !expired)
  {
    GoesFacts(s, e);
    if OfPool(e) {
      OnlyBroadcasts(s, e);
      hide Step, Inv;
    } else {
      JoinGoesOn(s, e, t, expired);
    }
  }

  lemma JoinGoesOn(s: State, e: Event, t: nat, expired: bool)
    requires Inv(s) && Enabled(s, e) && InJoin(e) && !OfPool(e) && Answering(s, t, expired)
    ensures Answering(Step(s, e), t, expired || e.Expire?) && (e.Expire? ==> !expired)
  {
    hide StepPush, StepDetach, StepPool, StatusOk, CountOk, WorkerOk;
    if OnTask(s.client) { assert TaskOk(s, t); }
  }

  lemma {:induction false} AnsweringRun(s: State, events: seq<Event>, t: nat, expired: bool)
    requires Inv(s) && IsRun(s, events) && AllInCall(events) && Answering(s, t, expired)
    ensures Answering(Run(s, events), t, expired || Expire in events)
    decreases |events|
  {
    hide Goes, Step, Inv, Answering, Enabled, Allowed, Hazard;
    if events != [] {
      assert InJoin(events[0]);
      GoesFacts(s, events[0]);
      StepInv(s, events[0]);
      AnsweringStep(s, events[0], t, expired);
      AnsweringRun(Step(s, events[0]), events[1..], t, expired || events[0].Expire?);
      assert events == [events[0]] + events[1..];
    }
  }

  lemma Answered(s: State, t: nat, expired: bool)
    requires Answering(s, t, expired) && s.client.Idle?
    ensures if expired then s.ret == Timeout else s.ret.JoinOk? && s.ret.t == t
  {
  }

  function JoinCall(t: nat, timed: bool): Call { if timed then TimedJoin(t) else Join(t) }

  /**
   Both joins answer that the task was not pushed exactly if it never was, and then have
   done nothing. Otherwise the answer is a timeout exactly if the time ran out while the
   joiner waited, and the task's result if not.
   */
  lemma JoinAnswers(s: State, t: nat, timed: bool, before: seq<Event>, after: seq<Event>)
    requires Reachable(s) && CallRun(s, JoinCall(t, timed), before, after)
    requires Run(s, [Start(JoinCall(t, timed))] + (before + ([ClientStep] + after))).client.Idle?
    ensures t < |s.tasks|
    ensures var r := Run(s, [Start(JoinCall(t, timed))] + (before + ([ClientStep] + after)));
            if s.tasks[t].pushes == 0 then Refuses(s, r, before, after, TaskNotPushed)
            else if Expire in after then r.ret == Timeout
            else r.ret.JoinOk? && r.ret.t == t
  {
    ReachableFresh(s);
    hide Inv, Goes, Step, Refuses, CallRun, Answering, Fresh;
    CallParts(s, JoinCall(t, timed), before, after);
    var u := Looks(s, JoinCall(t, timed), before, after);
    MayName(s, JoinCall(t, timed), t);
    NeverPushed(s, t);
    PoolRunKeeps(s, before, t);
    var look := u.(client := JoinCheck(t, timed));
    JoinLooksAt(u, t, timed);
    LookStep(look);
    if u.tasks[t].status == Free {
      FirstStepRefuses(s, u, before, after, TaskNotPushed);
    } else {
      BeginsAnswering(Step(look, ClientStep), t, timed);
      AnsweringRun(Step(look, ClientStep), after, t, false);
      Answered(Run(Step(look, ClientStep), after), t, Expire in after);
    }
  }

  lemma BeginsAnswering(s: State, t: nat, timed: bool)
    requires s.client == JoinLock(t, timed)
    ensures Answering(s, t, false)
  {
  }

  lemma MayName(s: State, call: Call, t: nat)
    requires Allowed(s, Start(call)) && (call == Join(t) || call == TimedJoin(t) || call == Detach(t) || call == Delete(t))
    ensures t < |s.tasks| && s.tasks[t].mine
  {
  }

  // ---------------------------------------------------------------- which tasks were never pushed

  /** A task that is free was never pushed, but for the moments in which detach frees it. */
  ghost predicate Fresh(s: State) {
    forall t :: 0 <= t < |s.tasks| && s.tasks[t].mine && s.tasks[t].status == Free && s.tasks[t].pushes > 0 ==>
      s.client == DetachUnlockFree(t) || s.client == DeleteCheckFree(t) || s.client == DeleteTask(t)
  }

  lemma FreshStep(s: State, e: Event)
    requires Inv(s) && Fresh(s) && Goes(s, e)
    ensures Fresh(Step(s, e))
  {
    GoesFacts(s, e);
    if OfPool(e) {
      PoolFresh(s, e);
    } else if e.ClientStep? && OnTask(s.client) {
      ClientFresh(s);
    } else {
      OtherFresh(s, e);
    }
  }

  lemma PoolFresh(s: State, e: Event)
    requires Inv(s) && Fresh(s) && Goes(s, e) && OfPool(e)
    ensures Fresh(Step(s, e))
  {
    GoesFacts(s, e);
    OnlyBroadcasts(s, e);
    PoolTasks(s, e);
    forall t | 0 <= t < |s.tasks| ensures Step(s, e).tasks[t].mine == s.tasks[t].mine {
      KeepsMine(s, e, t);
    }
    forall t | 0 <= t < |s.tasks| ensures Step(s, e).tasks[t].pushes == s.tasks[t].pushes {
      PoolKeepsPushes(s, e, t);
    }
    forall t | 0 <= t < |s.tasks| && s.tasks[t].mine ensures Step(s, e).tasks[t].status == Free <==> s.tasks[t].status == Free {
      PoolKeepsFree(s, e, t);
    }
    hide Inv, Goes, Step;
  }

  lemma PoolTasks(s: State, e: Event)
    requires Inv(s) && Goes(s, e) && OfPool(e)
    ensures |Step(s, e).tasks| == |s.tasks|
  {
    PoolSafe(s, e);
    if e.Work? && Holds(s.workers[e.i]) {
      WorkIsWorked(s, e.i);
    }
    hide Inv, WorkTask;
  }

  lemma OtherFresh(s: State, e: Event)
    requires Fresh(s) && Enabled(s, e) && !OfPool(e) && (e.ClientStep? ==> !OnTask(s.client))
    ensures Fresh(Step(s, e))
  {
    hide StepPush, StepJoin, StepDetach;
  }

  lemma ClientFresh(s: State)
    requires Inv(s) && Fresh(s) && Goes(s, ClientStep) && OnTask(s.client)
    ensures Fresh(StepClient(s))
  {
    GoesFacts(s, ClientStep);
    AliveOnTask(s);
    if s.client.PushQueue? || s.client.PushSpawn? {
      PushFresh(s);
    } else {
      ClientElsewhere(s);
      OwnFresh(s);
      hide Inv, Goes, StepClient;
    }
  }

  lemma AliveOnTask(s: State)
    requires Inv(s) && OnTask(s.client)
    ensures Alive(s, s.client.t) && s.tasks[s.client.t].mine
  {
    assert TaskOk(s, s.client.t);
  }

  lemma PushFresh(s: State)
    requires Inv(s) && Fresh(s) && Goes(s, ClientStep) && (s.client.PushQueue? || s.client.PushSpawn?)
    ensures Fresh(StepClient(s))
  {
    var t := s.client.t;
    assert TaskOk(s, t);
    if s.client.PushQueue? {
      assert s.tasks[t].status == Pushed;
      PushBackFacts(s, PushBack(s, t));
    }
  }

  /** The client's own task after its step. */
  lemma OwnFresh(s: State)
    requires Inv(s) && Fresh(s) && Goes(s, ClientStep) && OnTask(s.client) && !s.client.PushQueue? && !s.client.PushSpawn?
    ensures var t, v := s.client.t, StepClient(s);
            t < |v.tasks| && (v.tasks[t].mine && v.tasks[t].status == Free && v.tasks[t].pushes > 0 ==>
              v.client == DetachUnlockFree(t) || v.client == DeleteCheckFree(t) || v.client == DeleteTask(t))
    ensures s.client == DetachUnlockFree(s.client.t) || s.client == DeleteCheckFree(s.client.t) || s.client == DeleteTask(s.client.t) ==>
              StepClient(s).client != s.client
  {
    AliveOnTask(s);
    hide Inv, TaskOk;
  }

  lemma {:induction false} RunFresh(s: State, events: seq<Event>)
    requires Inv(s) && Fresh(s) && IsRun(s, events)
    ensures Inv(Run(s, events)) && Fresh(Run(s, events))
    decreases |events|
  {
    hide Inv, Fresh, Goes, Enabled, Allowed, Hazard, Step;
    if events != [] {
      GoesFacts(s, events[0]);
      FreshStep(s, events[0]);
      StepInv(s, events[0]);
      RunFresh(Step(s, events[0]), events[1..]);
    }
  }

  lemma ReachableFresh(s: State)
    requires Reachable(s)
    ensures Inv(s) && Fresh(s)
  {
    var n: int, events: seq<Event> :| |New(n)| == 1 && IsRun(New(n)[0], events) && s == Run(New(n)[0], events);
    RunFresh(New(n)[0], events);
  }

  lemma NeverPushed(s: State, t: nat)
    requires Inv(s) && Fresh(s) && s.client.Idle? && t < |s.tasks| && s.tasks[t].mine
    ensures s.tasks[t].status == Free <==> s.tasks[t].pushes == 0
  {
    assert TaskOk(s, t);
    var k := s.tasks[t];
    if k.stage.Held? { assert WorkerOk(s, k.stage.worker); }
  }

  // ---------------------------------------------------------------- detach

  lemma DetachLooksAt(u: State, t: nat)
    requires Inv(u.(client := DetachCheck(t)))
    ensures t < |u.tasks|
    ensures var v := StepClient(u.(client := DetachCheck(t)));
            if u.tasks[t].status == Free then v == u.(client := Idle, ret := TaskNotPushed) else v == u.(client := DetachLock(t))
  {
    assert TaskOk(u.(client := DetachCheck(t)), t);
  }

  /** In a detach of t past its check. */
  predicate Detaching(s: State, t: nat) {
    var c := s.client;
    && t < |s.tasks|
    && (|| ((c.DetachLock? || c.DetachTest? || c.DetachSetFree? || c.DetachSet? || c.DetachUnlock?) && c.t == t)
        || ((c.DetachUnlockFree? || c.DeleteCheckFree? || c.DeleteTask?) && c.t == t && s.tasks[t].status == Free && s.tasks[t].stage == Own)
        || (c.Idle? && (s.ret == DetachOk || s.ret == DeleteOk) && !s.tasks[t].mine))
  }

  lemma DetachingStep(s: State, e: Event, t: nat)
    requires Inv(s) && Goes(s, e) && InJoin(e) && Detaching(s, t)
    ensures Detaching(Step(s, e), t)
  {
    GoesFacts(s, e);
    if OfPool(e) {
      OnlyBroadcasts(s, e);
      KeepsMine(s, e, t);
      if s.tasks[t].stage == Own { KeepsOff(s, e, t); }
      hide Step, Inv;
    } else {
      DetachGoesOn(s, e, t);
    }
  }

  lemma DetachGoesOn(s: State, e: Event, t: nat)
    requires Inv(s) && Enabled(s, e) && InJoin(e) && !OfPool(e) && Detaching(s, t)
    ensures Detaching(Step(s, e), t)
  {
    hide StepPush, StepJoin, StepPool, StatusOk, CountOk, WorkerOk;
    if OnTask(s.client) { AliveOnTask(s); }
  }

  lemma {:induction false} DetachingRun(s: State, events: seq<Event>, t: nat)
    requires Inv(s) && IsRun(s, events) && AllInCall(events) && Detaching(s, t)
    ensures Detaching(Run(s, events), t)
    decreases |events|
  {
    hide Goes, Step, Inv, Detaching, Enabled, Allowed, Hazard;
    if events != [] {
      assert InJoin(events[0]);
      GoesFacts(s, events[0]);
      StepInv(s, events[0]);
      DetachingStep(s, events[0], t);
      DetachingRun(Step(s, events[0]), events[1..], t);
    }
  }

  lemma Detached(s: State, t: nat)
    requires Detaching(s, t) && s.client.Idle?
    ensures t < |s.tasks| && (s.ret == DetachOk || s.ret == DeleteOk) && !s.tasks[t].mine
  {
  }

  lemma BeginsDetaching(s: State, t: nat)
    requires s.client == DetachLock(t) && t < |s.tasks|
    ensures Detaching(s, t)
  {
  }

  /** thread_task_detach refuses exactly a task that was never pushed, and then has done nothing. Otherwise the task is given away. */
  lemma DetachAnswers(s: State, t: nat, before: seq<Event>, after: seq<Event>)
    requires Reachable(s) && CallRun(s, Detach(t), before, after)
    requires Run(s, [Start(Detach(t))] + (before + ([ClientStep] + after))).client.Idle?
    ensures t < |s.tasks|
    ensures var r := Run(s, [Start(Detach(t))] + (before + ([ClientStep] + after)));
            if s.tasks[t].pushes == 0 then Refuses(s, r, before, after, TaskNotPushed)
            else (r.ret == DetachOk || r.ret == DeleteOk) && t < |r.tasks| && !r.tasks[t].mine
  {
    ReachableFresh(s);
    hide Inv, Goes, Step, Refuses, CallRun, Detaching, Fresh;
    CallParts(s, Detach(t), before, after);
    var u := Looks(s, Detach(t), before, after);
    MayName(s, Detach(t), t);
    NeverPushed(s, t);
    PoolRunKeeps(s, before, t);
    var look := u.(client := DetachCheck(t));
    DetachLooksAt(u, t);
    LookStep(look);
    if u.tasks[t].status == Free {
      FirstStepRefuses(s, u, before, after, TaskNotPushed);
    } else {
      BeginsDetaching(Step(look, ClientStep), t);
      DetachingRun(Step(look, ClientStep), after, t);
      Detached(Run(Step(look, ClientStep), after), t);
    }
  }

  // ---------------------------------------------------------------- delete

  lemma DeleteLooks(u: State, t: nat)
    requires Inv(u.(client := DeleteCheckFree(t)))
    ensures t < |u.tasks|
    ensures StepClient(u.(client := DeleteCheckFree(t))) == u.(client := if u.tasks[t].status == Free then DeleteTask(t) else DeleteCheckFinished(t))
  {
    assert TaskOk(u.(client := DeleteCheckFree(t)), t);
  }

  lemma DeleteLooksAgain(u: State, t: nat)
    requires Inv(u.(client := DeleteCheckFinished(t)))
    ensures t < |u.tasks|
    ensures var v := StepClient(u.(client := DeleteCheckFinished(t)));
            if u.tasks[t].status == Finished then v == u.(client := DeleteTask(t)) else v == u.(client := Idle, ret := TaskInPool)
  {
    assert TaskOk(u.(client := DeleteCheckFinished(t)), t);
  }

  /** A call to delete t that is not refused. */
  predicate Destroys(s: State, t: nat) {
    t < |s.tasks| && (s.client == DeleteTask(t) || (s.client.Idle? && s.ret == DeleteOk && s.tasks[t].stage == Dead))
  }

  lemma DestroysStep(s: State, e: Event, t: nat)
    requires Inv(s) && Goes(s, e) && InJoin(e) && Destroys(s, t)
    ensures Destroys(Step(s, e), t)
  {
    GoesFacts(s, e);
    if OfPool(e) {
      OnlyBroadcasts(s, e);
      PoolTasks(s, e);
      if s.tasks[t].stage == Dead { KeepsOff(s, e, t); }
      hide Step, Inv;
    } else {
      AliveOnTask(s);
    }
  }

  lemma {:induction false} DestroysRun(s: State, events: seq<Event>, t: nat)
    requires Inv(s) && IsRun(s, events) && AllInCall(events) && Destroys(s, t)
    ensures Destroys(Run(s, events), t)
    decreases |events|
  {
    hide Goes, Step, Inv, Destroys, Enabled, Allowed, Hazard;
    if events != [] {
      assert InJoin(events[0]);
      GoesFacts(s, events[0]);
      StepInv(s, events[0]);
      DestroysStep(s, events[0], t);
      DestroysRun(Step(s, events[0]), events[1..], t);
    }
  }

  lemma Destroyed(s: State, t: nat)
    requires s.client == DeleteTask(t) && t < |s.tasks|
    ensures Destroys(s, t)
  {
  }

  lemma Gone(s: State, t: nat)
    requires Destroys(s, t) && s.client.Idle?
    ensures s.ret == DeleteOk && t < |s.tasks| && s.tasks[t].stage == Dead
  {
  }

  /** thread_task_delete frees a task that was never pushed. */
  lemma DeleteUnpushed(s: State, t: nat, before: seq<Event>, after: seq<Event>)
    requires Reachable(s) && CallRun(s, Delete(t), before, after) && t < |s.tasks| && s.tasks[t].pushes == 0
    requires Run(s, [Start(Delete(t))] + (before + ([ClientStep] + after))).client.Idle?
    ensures var r := Run(s, [Start(Delete(t))] + (before + ([ClientStep] + after))); r.ret == DeleteOk && t < |r.tasks| && r.tasks[t].stage == Dead
  {
    ReachableFresh(s);
    hide Inv, Goes, Step, CallRun, Destroys, Fresh;
    CallParts(s, Delete(t), before, after);
    var u := Looks(s, Delete(t), before, after);
    MayName(s, Delete(t), t);
    NeverPushed(s, t);
    PoolRunKeeps(s, before, t);
    var look := u.(client := DeleteCheckFree(t));
    DeleteLooks(u, t);
    LookStep(look);
    Destroyed(Step(look, ClientStep), t);
    DestroysRun(Step(look, ClientStep), after, t);
    Gone(Run(Step(look, ClientStep), after), t);
  }

  /**
   One that was pushed it frees exactly if it finds it finished when it looks a second
   time. Otherwise it refuses, and has done nothing.
   */
  lemma DeletePushed(s: State, t: nat, before: seq<Event>, between: seq<Event>, after: seq<Event>)
    requires Reachable(s) && CallRun(s, Delete(t), before, between + ([ClientStep] + after)) && AllOfPool(between)
    requires t < |s.tasks| && s.tasks[t].pushes > 0
    requires Run(s, [Start(Delete(t))] + (before + ([ClientStep] + (between + ([ClientStep] + after))))).client.Idle?
    ensures PoolRun(s, before + between) && t < |Run(s, before + between).tasks|
    ensures var r := Run(s, [Start(Delete(t))] + (before + ([ClientStep] + (between + ([ClientStep] + after)))));
            if Run(s, before + between).tasks[t].status == Finished then r.ret == DeleteOk && t < |r.tasks| && r.tasks[t].stage == Dead
            else Refuses(s, r, before + between, after, TaskInPool)
  {
    ReachableFresh(s);
    hide Inv, Goes, Step, Refuses, CallRun, Destroys, Fresh, Enabled, Allowed, Hazard;
    var rest := between + ([ClientStep] + after);
    CallParts(s, Delete(t), before, rest);
    var u := Looks(s, Delete(t), before, rest);
    MayName(s, Delete(t), t);
    NeverPushed(s, t);
    PoolRunKeeps(s, before, t);
    DeleteLooks(u, t);
    LookStep(u.(client := DeleteCheckFree(t)));
    var w := SecondLook(s, u, DeleteCheckFinished(t), before, between, after);
    var look := w.(client := DeleteCheckFinished(t));
    DeleteLooksAgain(w, t);
    LookStep(look);
    if w.tasks[t].status == Finished {
      Destroyed(Step(look, ClientStep), t);
      DestroysRun(Step(look, ClientStep), after, t);
      Gone(Run(Step(look, ClientStep), after), t);
    } else {
      FirstStepRefuses(s, w, before + between, after, TaskInPool);
    }
  }

  /** The state in which a call looks a second time: without the call it would be `w`. */
  lemma SecondLook(s: State, u: State, c: Client, before: seq<Event>, between: seq<Event>, after: seq<Event>) returns (w: State)
    requires PoolRun(s, before) && u == Run(s, before) && u.client.Idle? && u.ret == s.ret && !c.JoinAsleep?
    requires Inv(u.(client := c)) && IsRun(u.(client := c), between + ([ClientStep] + after))
    requires AllOfPool(between) && AllInCall(between + ([ClientStep] + after))
    ensures PoolRun(s, before + between) && w == Run(s, before + between) && w.client.Idle? && w.ret == s.ret && AllInCall(after)
    ensures var look := w.(client := c);
            && Inv(look) && Goes(look, ClientStep) && IsRun(Step(look, ClientStep), after) && Inv(Step(look, ClientStep))
            && Run(u.(client := c), between + ([ClientStep] + after)) == Run(Step(look, ClientStep), after)
  {
    hide Inv, Goes, Step, Enabled, Allowed, Hazard;
    var v := u.(client := c);
    RunSplit(v, between, [ClientStep] + after);
    RunBeside(v, between, Idle, u.ret);
    assert v.(client := Idle, ret := u.ret) == u;
    PoolRunConcat(s, before, between);
    w := Run(u, between);
    RunBeside(u, between, c, u.ret);
    var look := w.(client := c);
    RunInv(v, between);
    RunSplit(look, [ClientStep], after);
    OneStep(look, ClientStep);
    StepInv(look, ClientStep);
    AfterBoth(between, after, between + ([ClientStep] + after));
  }

  // ---------------------------------------------------------------- the pool

  /** A pool is made for 1 to 20 threads, and for no other number. */
  lemma NewAnswers(maxThreads: int)
    ensures |New(maxThreads)| == 1 <==> 1 <= maxThreads <= 20
    ensures |New(maxThreads)| == 1 ==> var s := New(maxThreads)[0]; s.queue == [] && s.workers == [] && s.tasks == [] && s.maxThreads == maxThreads
  {
  }

  /** A worker counted as running: from the moment it is about to run a task until it is through with it. */
  predicate SomeRuns(s: State) { exists i :: 0 <= i < |s.workers| && Counted(s.workers[i]) }

  lemma {:induction false} CountedSome(workers: seq<Worker>)
    ensures CountRunning(workers) == 0 <==> forall i :: 0 <= i < |workers| ==> !Counted(workers[i])
  {
    if workers != [] {
      var n := |workers| - 1;
      CountedSome(workers[..n]);
      assert forall i :: 0 <= i < n ==> workers[..n][i] == workers[i];
    }
  }

  lemma RunningSome(s: State)
    requires Inv(s)
    ensures s.running != 0 <==> SomeRuns(s)
  {
    CountedSome(s.workers);
  }

  lemma PoolLooks(u: State)
    requires Inv(u.(client := PoolCheckSize))
    ensures var v := StepClient(u.(client := PoolCheckSize));
            if u.queue != [] then v == u.(client := Idle, ret := HasTasks) else v == u.(client := PoolCheckRunning)
  {
    QueueSize(u.(client := PoolCheckSize));
  }

  lemma PoolLooksAgain(u: State)
    requires Inv(u.(client := PoolCheckRunning))
    ensures var v := StepClient(u.(client := PoolCheckRunning));
            if SomeRuns(u) then v == u.(client := Idle, ret := HasTasks) else v == u.(client := PoolSetDeleting)
  {
    RunningSome(u.(client := PoolCheckRunning));
  }

  /** thread_pool_delete refuses a pool in whose queue it finds a task, and then has done nothing. */
  lemma DeletePoolQueued(s: State, before: seq<Event>, after: seq<Event>)
    requires Reachable(s) && CallRun(s, DeletePool, before, after)
    ensures PoolRun(s, before)
    ensures Run(s, before).queue != [] ==>
              Refuses(s, Run(s, [Start(DeletePool)] + (before + ([ClientStep] + after))), before, after, HasTasks)
  {
    ReachableInv(s);
    hide Inv, Goes, Step, Refuses, CallRun;
    CallParts(s, DeletePool, before, after);
    var u := Looks(s, DeletePool, before, after);
    var look := u.(client := PoolCheckSize);
    PoolLooks(u);
    LookStep(look);
    if u.queue != [] {
      FirstStepRefuses(s, u, before, after, HasTasks);
    }
  }

  /** Past both looks. */
  predicate GoesAhead(s: State) {
    s.client.PoolSetDeleting? || s.client.PoolBroadcast? || s.client.PoolJoin? || s.client.PoolFree? || (s.client.Idle? && s.ret == PoolDeleted)
  }

  lemma {:induction false} GoesAheadRun(s: State, events: seq<Event>)
    requires GoesAhead(s) && IsRun(s, events) && AllInCall(events)
    ensures GoesAhead(Run(s, events))
    decreases |events|
  {
    hide Goes, Step, GoesAhead, Enabled;
    if events != [] {
      assert InJoin(events[0]);
      GoesFacts(s, events[0]);
      GoesAheadStep(s, events[0]);
      GoesAheadRun(Step(s, events[0]), events[1..]);
    }
  }

  lemma GoesAheadStep(s: State, e: Event)
    requires GoesAhead(s) && Enabled(s, e) && InJoin(e)
    ensures GoesAhead(Step(s, e))
  {
    if OfPool(e) {
      OnlyBroadcasts(s, e);
      hide Step;
    } else {
      hide StepPush, StepJoin, StepDetach;
    }
  }

  /**
   A pool in whose queue it finds none it refuses exactly if it then finds a worker
   running, and then, too, has done nothing.
   */
  lemma DeletePoolRunning(s: State, before: seq<Event>, between: seq<Event>, after: seq<Event>)
    requires Reachable(s) && CallRun(s, DeletePool, before, between + ([ClientStep] + after)) && AllOfPool(between)
    ensures PoolRun(s, before) && Run(s, before).queue == []
    ensures PoolRun(s, before + between)
    ensures var r := Run(s, [Start(DeletePool)] + (before + ([ClientStep] + (between + ([ClientStep] + after)))));
            if SomeRuns(Run(s, before + between)) then Refuses(s, r, before + between, after, HasTasks)
            else r.client.Idle? ==> r.ret == PoolDeleted
  {
    ReachableInv(s);
    hide Inv, Goes, Step, Refuses, CallRun, GoesAhead, SomeRuns, Enabled, Allowed, Hazard;
    var rest := between + ([ClientStep] + after);
    CallParts(s, DeletePool, before, rest);
    var u := Looks(s, DeletePool, before, rest);
    PoolLooks(u);
    LookStep(u.(client := PoolCheckSize));
    var v := Step(u.(client := PoolCheckSize), ClientStep);
    NotIdle(v, between, after);
    var w := SecondLook(s, u, PoolCheckRunning, before, between, after);
    var look := w.(client := PoolCheckRunning);
    PoolLooksAgain(w);
    LookStep(look);
    if SomeRuns(w) {
      FirstStepRefuses(s, w, before + between, after, HasTasks);
    } else {
      AheadAtLast(Step(look, ClientStep), after);
    }
  }

  /** A run in which a call takes a step has not begun between calls. */
  lemma NotIdle(s: State, between: seq<Event>, after: seq<Event>)
    requires IsRun(s, between + ([ClientStep] + after)) && AllOfPool(between)
    ensures !s.client.Idle?
  {
    hide Goes, Step, Enabled;
    RunSplit(s, between, [ClientStep] + after);
    var u := Run(s, between);
    if s.client.Idle? {
      assert AllInCall(between);
      IdleRun(s, between);
    }
    RunSplit(u, [ClientStep], after);
    OneStep(u, ClientStep);
    InSomeCall(u);
  }

  lemma InSomeCall(s: State)
    requires Enabled(s, ClientStep)
    ensures !s.client.Idle?
  {
  }

  lemma AfterBoth(between: seq<Event>, after: seq<Event>, rest: seq<Event>)
    requires rest == between + ([ClientStep] + after) && AllInCall(rest)
    ensures AllInCall(after)
  {
    forall k | 0 <= k < |after| ensures InJoin(after[k]) {
      assert after[k] == rest[|between| + 1 + k];
    }
  }

  lemma AheadAtLast(s: State, events: seq<Event>)
    requires s.client.PoolSetDeleting? && IsRun(s, events) && AllInCall(events)
    ensures Run(s, events).client.Idle? ==> Run(s, events).ret == PoolDeleted
  {
    GoesAheadRun(s, events);
  }
}
