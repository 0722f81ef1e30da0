/**
 The scheduler of the reference coroutines as a value: the list of coroutines and who
 has control. A coroutine's context is what its function has yet to do.
 */
module SchedulerModel {

  /** What a coroutine's function does; one that never returns is no Script. */
  datatype Script =
    | Finish(ret: int)
    | Yield(rest: Script)
    | New(child: Script, rest: Script)

  datatype Coro = Coro(id: nat, func: Script, context: Script, switches: nat, finished: bool, ret: int)

  datatype Control = Scheduler | Runs(at: nat)

  datatype Found = None | Some(coro: Coro)

  /**
   `crashed` is set where the program would exit with "no place to return" or jump into
   a coroutine that has ended. `next` coroutines were created, `returned` lists those
   that coro_sched_wait has handed out.
   */
  datatype State = State(list: seq<Coro>, control: Control, waiting: bool, crashed: bool, next: nat, returned: seq<nat>)

  // ---------------------------------------------------------------- the scheduler

  function Init(): State { State([], Scheduler, false, false, 0, []) }

  function Fresh(id: nat, func: Script): Coro { Coro(id, func, func, 0, false, 0) }

  /** coro_new: at the front of the list. The coroutine in control stays in control. */
  function CoroNew(s: State, func: Script): State {
    s.(list := [Fresh(s.next, func)] + s.list, next := s.next + 1,
       control := if s.control.Runs? then Runs(s.control.at + 1) else s.control)
  }

  predicate CanRun(s: State) { s.control.Runs? && s.control.at < |s.list| && !s.crashed }

  function This(s: State): Coro
    requires CanRun(s)
  {
    s.list[s.control.at]
  }

  function SetThis(s: State, c: Coro): State
    requires CanRun(s)
  {
    s.(list := s.list[s.control.at := c])
  }

  /** coro_yield of a coroutine: on to the next in the list, and behind the last to the scheduler. */
  function CoroYield(s: State): State
    requires CanRun(s)
  {
    SetThis(s, This(s).(switches := This(s).switches + 1)).
      (control := if s.control.at + 1 < |s.list| then Runs(s.control.at + 1) else Scheduler)
  }

  /** The end of coro_body. */
  function CoroEnd(s: State, ret: int): State
    requires CanRun(s)
  {
    SetThis(s, This(s).(ret := ret, finished := true)).(control := Scheduler, crashed := !s.waiting)
  }

  /** What the coroutine in control does next. */
  function Step(s: State): State
    requires CanRun(s)
  {
    var c := This(s);
    if c.finished then s.(crashed := true)
    else
      match c.context
      case Finish(ret) => CoroEnd(s, ret)
      case Yield(rest) => CoroYield(SetThis(s, c.(context := rest)))
      case New(child, rest) => CoroNew(SetThis(s, c.(context := rest)), child)
  }

  /** coro_yield_to of the scheduler: comes back when control does. */
  function Resume(s: State): (r: State)
    requires CanRun(s)
    ensures r.crashed || r.control == Scheduler
    decreases Work(s.list)
  {
    StepWorks(s);
    var t := Step(s);
    if CanRun(t) then Resume(t) else t
  }

  function FirstFinished(list: seq<Coro>): (k: nat)
    ensures k <= |list| && (k < |list| ==> list[k].finished) && forall i :: 0 <= i < k ==> !list[i].finished
  {
    if list == [] || list[0].finished then 0 else 1 + FirstFinished(list[1..])
  }

  function Remove(s: State, k: nat): State
    requires k < |s.list|
  {
    s.(list := s.list[..k] + s.list[k + 1..], returned := s.returned + [s.list[k].id])
  }

  /** coro_sched_wait */
  function SchedWait(s: State): (r: (State, Found))
    requires s.control == Scheduler && !s.crashed
    decreases Work(s.list)
  {
    if s.list == [] then (s, None)
    else
      var k := FirstFinished(s.list);
      if k < |s.list| then (Remove(s, k), Some(s.list[k]))
      else
        var t := s.(waiting := true, control := Runs(0));
        ResumeWorks(t);
        var u := Resume(t).(waiting := false);
        if u.crashed then (u, None) else SchedWait(u)
  }

  // ---------------------------------------------------------------- it ends

  function Size(script: Script): (n: nat)
    ensures n >= 1
  {
    match script
    case Finish(_) => 1
    case Yield(rest) => 1 + Size(rest)
    case New(child, rest) => 1 + Size(child) + Size(rest)
  }

  function Left(c: Coro): nat { if c.finished then 0 else Size(c.context) }

  function Work(list: seq<Coro>): nat {
    if list == [] then 0 else Left(list[0]) + Work(list[1..])
  }

  lemma {:induction false} WorkUpdate(list: seq<Coro>, i: nat, c: Coro)
    requires i < |list|
    ensures Work(list[i := c]) == Work(list) - Left(list[i]) + Left(c)
  {
    if i == 0 {
      assert list[0 := c][1..] == list[1..];
    } else {
      assert list[i := c][1..] == list[1..][i - 1 := c];
      WorkUpdate(list[1..], i - 1, c);
    }
  }

  lemma StepWorks(s: State)
    requires CanRun(s)
    ensures if This(s).finished then Step(s).crashed else Work(Step(s).list) < Work(s.list)
  {
    var t, c, i := Step(s), This(s), s.control.at;
    if !c.finished {
      if c.context.New? {
        var saved := s.list[i := c.(context := c.context.rest)];
        WorkUpdate(s.list, i, saved[i]);
        assert t.list[0] == Fresh(s.next, c.context.child) && t.list[1..] == saved;
      } else {
        WorkUpdate(s.list, i, t.list[i]);
        assert t.list == s.list[i := t.list[i]];
      }
    }
  }

  lemma {:induction false} ResumeWorks(s: State)
    requires CanRun(s)
    ensures Resume(s).crashed || Work(Resume(s).list) < Work(s.list)
    decreases Work(s.list)
  {
    StepWorks(s);
    if CanRun(Step(s)) {
      ResumeWorks(Step(s));
    }
  }

  /** One round of the loop of coro_sched_wait. */
  lemma WaitUnfolds(s: State)
    requires s.control == Scheduler && !s.crashed
    ensures s.list == [] ==> SchedWait(s) == (s, None)
    ensures s.list != [] ==>
              var k := FirstFinished(s.list);
              if k < |s.list| then SchedWait(s) == (Remove(s, k), Some(s.list[k]))
              else
                var u := Resume(s.(waiting := true, control := Runs(0))).(waiting := false);
                if u.crashed then SchedWait(s) == (u, None)
                else u.control == Scheduler && SchedWait(s) == SchedWait(u) && Work(u.list) < Work(s.list)
  {
    if s.list != [] && FirstFinished(s.list) == |s.list| {
      ResumeWorks(s.(waiting := true, control := Runs(0)));
    }
  }

  // ---------------------------------------------------------------- what holds while a coroutine runs

  function Yields(script: Script): nat {
    match script
    case Finish(_) => 0
    case Yield(rest) => 1 + Yields(rest)
    case New(_, rest) => Yields(rest)
  }

  function Result(script: Script): int {
    match script
    case Finish(ret) => ret
    case Yield(rest) => Result(rest)
    case New(_, rest) => Result(rest)
  }

  /** It has made the switches, and has or will have the result, that its function says. */
  predicate Honest(c: Coro) {
    && Yields(c.func) == c.switches + (if c.finished then 0 else Yields(c.context))
    && Result(c.func) == if c.finished then c.ret else Result(c.context)
  }

  function Count(s: State, id: nat): nat { multiset(Ids(s.list))[id] + multiset(s.returned)[id] }

  function Ids(list: seq<Coro>): (r: seq<nat>)
    ensures |r| == |list| && forall i :: 0 <= i < |r| ==> r[i] == list[i].id
  {
    seq(|list|, i requires 0 <= i < |list| => list[i].id)
  }

  /** Each coroutine created is in the list or has been handed out, and not both, and once. */
  ghost predicate Sound(s: State) {
    && (forall i :: 0 <= i < |s.list| ==> Honest(s.list[i]))
    && (forall id: nat :: Count(s, id) == if id < s.next then 1 else 0)
  }

  predicate NoneFinished(s: State) { forall i :: 0 <= i < |s.list| ==> !s.list[i].finished }

  /** While a coroutine runs, the scheduler waits for it and no coroutine in the list is finished. */
  ghost predicate Running(s: State) { Sound(s) && CanRun(s) && s.waiting && NoneFinished(s) }

  /** Between the calls of the main program. */
  ghost predicate Waiting(s: State) { Sound(s) && s.control == Scheduler && !s.crashed && NoneFinished(s) }

  /** Back in the scheduler with coroutine i finished, and no other. */
  ghost predicate OneFinished(s: State, i: nat) {
    && Sound(s) && s.control == Scheduler && !s.crashed && i < |s.list| && s.list[i].finished
    && forall j :: 0 <= j < |s.list| && j != i ==> !s.list[j].finished
  }

  lemma NewSound(s: State, func: Script)
    requires Sound(s)
    ensures Sound(CoroNew(s, func))
  {
    forall id: nat ensures Count(CoroNew(s, func), id) == if id < s.next + 1 then 1 else 0 {
      NewCount(s, func, id);
    }
  }

  lemma NewCount(s: State, func: Script, id: nat)
    ensures Count(CoroNew(s, func), id) == Count(s, id) + if id == s.next then 1 else 0
  {
    assert Ids(CoroNew(s, func).list) == [s.next] + Ids(s.list);
  }

  lemma SetSound(s: State, c: Coro)
    requires Sound(s) && CanRun(s) && c.id == This(s).id && Honest(c)
    ensures Sound(SetThis(s, c))
  {
    forall id: nat ensures Count(SetThis(s, c), id) == if id < s.next then 1 else 0 {
      SetCount(s, c, id);
    }
  }

  lemma SetCount(s: State, c: Coro, id: nat)
    requires CanRun(s) && c.id == This(s).id
    ensures Count(SetThis(s, c), id) == Count(s, id)
  {
    assert Ids(SetThis(s, c).list) == Ids(s.list);
  }

  /** What matters for Sound is the list and what was handed out. */
  lemma SameSound(s: State, t: State)
    requires Sound(s) && t.list == s.list && t.returned == s.returned && t.next == s.next
    ensures Sound(t)
  {
    forall id: nat ensures Count(t, id) == if id < s.next then 1 else 0 {
      assert Count(s, id) == if id < s.next then 1 else 0;
    }
  }

  /** The coroutine in control hands it to another one, or gives it back; then at most it has finished. */
  lemma StepRunning(s: State)
    requires Running(s)
    ensures var t := Step(s);
            && t.waiting && !t.crashed && (t.control.Runs? ==> Running(t))
            && (t.control == Scheduler ==> Waiting(t) || OneFinished(t, s.control.at))
  {
    var c := This(s);
    match c.context
    case Finish(ret) =>
      SetSound(s, c.(ret := ret, finished := true));
      SameSound(SetThis(s, c.(ret := ret, finished := true)), Step(s));
    case Yield(rest) =>
      var d := c.(context := rest, switches := c.switches + 1);
      SetSound(s, d);
      assert Step(s).list == SetThis(s, d).list;
      SameSound(SetThis(s, d), Step(s));
    case New(child, rest) =>
      SetSound(s, c.(context := rest));
      NewSound(SetThis(s, c.(context := rest)), child);
  }

  lemma {:induction false} ResumeReturns(s: State) returns (i: nat)
    requires Running(s)
    ensures var t := Resume(s); t.waiting && (Waiting(t) || OneFinished(t, i))
    decreases Work(s.list)
  {
    hide Sound;
    StepRunning(s);
    StepWorks(s);
    i := s.control.at;
    if CanRun(Step(s)) {
      i := ResumeReturns(Step(s));
    }
  }

  // ---------------------------------------------------------------- waiting

  lemma RemoveWaiting(s: State, k: nat)
    requires OneFinished(s, k)
    ensures Waiting(Remove(s, k)) && Work(Remove(s, k).list) == Work(s.list)
  {
    RemoveSound(s, k);
    hide Sound, Honest;
    WorkRemove(s.list, k);
  }

  lemma RemoveSound(s: State, k: nat)
    requires Sound(s) && k < |s.list|
    ensures Sound(Remove(s, k))
  {
    hide Honest;
    forall id: nat ensures Count(Remove(s, k), id) == if id < s.next then 1 else 0 {
      RemoveCount(s, k, id);
    }
  }

  lemma RemoveCount(s: State, k: nat, id: nat)
    requires k < |s.list|
    ensures Count(Remove(s, k), id) == Count(s, id)
  {
    var t, ids := Remove(s, k), Ids(s.list);
    assert Ids(t.list) == ids[..k] + ids[k + 1..] && ids == ids[..k] + [ids[k]] + ids[k + 1..];
  }

  lemma {:induction false} WorkRemove(list: seq<Coro>, k: nat)
    requires k < |list| && list[k].finished
    ensures Work(list[..k] + list[k + 1..]) == Work(list)
  {
    var r := list[..k] + list[k + 1..];
    if k == 0 {
      assert r == list[1..];
    } else {
      assert r[1..] == list[1..][..k - 1] + list[1..][k..];
      WorkRemove(list[1..], k - 1);
    }
  }

  /** Its function has ended, with this result, after this many switches. */
  predicate Ended(c: Coro) { c.finished && c.ret == Result(c.func) && c.switches == Yields(c.func) }

  /**
   coro_sched_wait never crashes. It hands out a coroutine that has ended, and NULL
   exactly when every coroutine created has been handed out before.
   */
  lemma {:induction false} WaitReturns(s: State)
    requires Waiting(s)
    ensures var (t, found) := SchedWait(s);
            && Waiting(t) && t.next >= s.next
            && (found == None <==> s.list == [])
            && (found == None ==> t == s && forall id: nat :: multiset(s.returned)[id] == if id < s.next then 1 else 0)
            && (found.Some? ==> Ended(found.coro) && t.returned == s.returned + [found.coro.id] && Work(t.list) < Work(s.list))
    decreases Work(s.list)
  {
    hide Waiting, Running, OneFinished, Sound;
    WaitingParts(s);
    if s.list == [] {
      AllHandedOut(s);
    } else {
      var t := s.(waiting := true, control := Runs(0));
      StartRunning(s);
      ResumeWorks(t);
      var i := ResumeReturns(t);
      ResumeKeeps(t);
      var u := Resume(t).(waiting := false);
      if Waiting(Resume(t)) {
        StillWaiting(Resume(t));
        WaitingParts(u);
        WaitReturns(u);
        StillListed(t);
      } else {
        HandOut(Resume(t), i);
      }
    }
  }

  lemma WaitingParts(s: State)
    requires Waiting(s)
    ensures s.control == Scheduler && !s.crashed && FirstFinished(s.list) == |s.list|
  {
  }

  lemma StartRunning(s: State)
    requires Waiting(s) && s.list != []
    ensures Running(s.(waiting := true, control := Runs(0)))
  {
    SameSound(s, s.(waiting := true, control := Runs(0)));
  }

  lemma StillWaiting(s: State)
    requires Waiting(s)
    ensures Waiting(s.(waiting := false))
  {
    SameSound(s, s.(waiting := false));
  }

  lemma AllHandedOut(s: State)
    requires Waiting(s) && s.list == []
    ensures forall id: nat :: multiset(s.returned)[id] == if id < s.next then 1 else 0
  {
    forall id: nat ensures multiset(s.returned)[id] == if id < s.next then 1 else 0 {
      assert Count(s, id) == if id < s.next then 1 else 0;
    }
  }

  lemma HandOut(s: State, i: nat)
    requires OneFinished(s, i)
    ensures var u := s.(waiting := false); var (t, found) := SchedWait(u);
            && t == Remove(u, i) && found == Some(s.list[i]) && Ended(s.list[i])
            && Waiting(t) && Work(t.list) == Work(s.list)
  {
    SameSound(s, s.(waiting := false));
    RemoveWaiting(s.(waiting := false), i);
    assert FirstFinished(s.list) == i;
  }

  /** Nothing is handed out, and nothing leaves the list, while coroutines run. */
  lemma {:induction false} ResumeKeeps(s: State)
    requires CanRun(s)
    ensures var t := Resume(s); t.returned == s.returned && t.next >= s.next && |t.list| >= |s.list|
    decreases Work(s.list)
  {
    StepWorks(s);
    if CanRun(Step(s)) {
      ResumeKeeps(Step(s));
    }
  }

  lemma StillListed(s: State)
    requires CanRun(s)
    ensures Resume(s).list != []
  {
    ResumeKeeps(s);
  }

  // ---------------------------------------------------------------- the main program

  /** What the main program does with coroutines. */
  datatype Call = Create(func: Script) | Wait

  function Do(s: State, call: Call): State
    requires s.control == Scheduler && !s.crashed
  {
    match call
    case Create(func) => CoroNew(s, func)
    case Wait => SchedWait(s).0
  }

  lemma DoWaiting(s: State, call: Call)
    requires Waiting(s)
    ensures Waiting(Do(s, call))
  {
    match call
    case Create(func) =>
      NewSound(s, func);
    case Wait =>
      WaitReturns(s);
  }

  /** Whatever the main program does, nothing crashes and no coroutine is lost or handed out twice. */
  ghost function RunCalls(calls: seq<Call>): (s: State)
    ensures Waiting(s)
  {
    if calls == [] then
      InitWaiting();
      Init()
    else
      var before := RunCalls(calls[..|calls| - 1]);
      DoWaiting(before, calls[|calls| - 1]);
      Do(before, calls[|calls| - 1])
  }

  lemma InitWaiting()
    ensures Waiting(Init())
  {
    assert forall id: nat :: Count(Init(), id) == 0;
  }

  /** The loop of the main program: waits until NULL. What it collects are the coroutines in the order they were handed out. */
  ghost function Drain(s: State): (r: (State, seq<Coro>))
    requires Waiting(s)
    decreases Work(s.list)
  {
    WaitReturns(s);
    var (t, found) := SchedWait(s);
    if found == None then (t, []) else var (u, rest) := Drain(t); (u, [found.coro] + rest)
  }

  /** It ends; every coroutine, those created meanwhile too, has been handed out exactly once, ended. */
  lemma {:induction false} DrainReturnsAll(s: State)
    requires Waiting(s)
    ensures var (t, all) := Drain(s);
            && t.list == [] && !t.crashed && t.returned == s.returned + Ids(all)
            && (forall id: nat :: multiset(t.returned)[id] == if id < t.next then 1 else 0)
            && forall i :: 0 <= i < |all| ==> Ended(all[i])
    decreases Work(s.list)
  {
    hide Waiting, SchedWait, Drain;
    WaitReturns(s);
    var t, found := DrainStep(s);
    if found == None {
      assert Ids([]) == [];
    } else {
      DrainReturnsAll(t);
      var (u, rest) := Drain(t);
      assert Ids([found.coro] + rest) == [found.coro.id] + Ids(rest);
    }
  }

  lemma DrainStep(s: State) returns (t: State, found: Found)
    requires Waiting(s)
    ensures SchedWait(s) == (t, found) && Waiting(t) && !t.crashed
    ensures if found == None then Drain(s) == (t, []) else Work(t.list) < Work(s.list) && Drain(s) == (Drain(t).0, [found.coro] + Drain(t).1)
  {
    WaitReturns(s);
    t, found := SchedWait(s).0, SchedWait(s).1;
  }

  // ---------------------------------------------------------------- a round

  /** After a slice that ended with a yield. */
  predicate Sliced(c: Coro, d: Coro) { d.id == c.id && d.func == c.func && d.switches == c.switches + 1 && !d.finished }

  /** After the slice in which its function has ended. */
  predicate EndedNow(c: Coro, d: Coro) { d.id == c.id && d.func == c.func && d.switches == c.switches && d.finished }

  /** Of those created meanwhile. */
  predicate Untouched(c: Coro) { c.switches == 0 && c.context == c.func && !c.finished }

  /**
   What a round from coroutine `at` to coroutine `to` does: those from `at` on and before
   `to` each get one slice, all others in the list none. New ones are in front of all.
   */
  ghost predicate Round(a: seq<Coro>, b: seq<Coro>, at: nat, to: nat) {
    var shift := |b| - |a|;
    && shift >= 0 && at <= to <= |a|
    && (forall i :: 0 <= i < shift ==> Untouched(b[i]))
    && (forall i :: 0 <= i < |a| && (i < at || i > to) ==> b[shift + i] == a[i])
    && (forall i :: at <= i < to ==> Sliced(a[i], b[shift + i]) && Yields(a[i].context) > 0)
    && (to < |a| ==> EndedNow(a[to], b[shift + to]) && Yields(a[to].context) == 0)
  }

  /** Control comes back when all from the one it was given to have had a slice each, or when one of them has ended. */
  lemma {:induction false} RoundSlices(s: State) returns (to: nat)
    requires Running(s)
    ensures s.control.at <= to <= |s.list| && Round(s.list, Resume(s).list, s.control.at, to)
    ensures to < |s.list| <==> !NoneFinished(Resume(s))
    decreases Work(s.list)
  {
    hide Sound, Round;
    var at, c, t := s.control.at, This(s), Step(s);
    StepRunning(s);
    StepWorks(s);
    if t.control == Scheduler {
      to := LastSlice(s, t);
    } else {
      to := RoundSlices(t);
      if c.context.Yield? {
        AfterYield(s, t, Resume(t), to);
      } else {
        AfterNew(s, t, Resume(t), to);
        to := to - 1;
      }
    }
  }

  /**
   Coroutine i gets a slice in the round exactly if each one before it, from the first
   on, still has a yield to make.
   */
  lemma SliceExactly(s: State, i: nat)
    requires Running(s) && s.control.at <= i < |s.list|
    ensures var t := Resume(s);
            var shift := |t.list| - |s.list|;
            && shift >= 0
            && (t.list[shift + i] != s.list[i] <==> forall j :: s.control.at <= j < i ==> Yields(s.list[j].context) > 0)
            && (t.list[shift + i] != s.list[i] ==> Sliced(s.list[i], t.list[shift + i]) || EndedNow(s.list[i], t.list[shift + i]))
  {
    var to := RoundSlices(s);
    assert !s.list[i].finished;
    SliceOfRound(s, Resume(s), s.control.at, to, i);
  }

  lemma SliceOfRound(s: State, t: State, at: nat, to: nat, i: nat)
    requires Round(s.list, t.list, at, to) && at <= i < |s.list| && !s.list[i].finished
    ensures var shift := |t.list| - |s.list|;
            && shift >= 0
            && (t.list[shift + i] != s.list[i] <==> forall j :: at <= j < i ==> Yields(s.list[j].context) > 0)
            && (t.list[shift + i] != s.list[i] ==> Sliced(s.list[i], t.list[shift + i]) || EndedNow(s.list[i], t.list[shift + i]))
  {
    hide Yields;
    if i > to {
      assert Yields(s.list[to].context) == 0;
    }
  }

  /** A slice that gives control back. */
  lemma LastSlice(s: State, t: State) returns (to: nat)
    requires Running(s) && t == Step(s) && t.control == Scheduler
    ensures s.control.at <= to <= |s.list| && Round(s.list, t.list, s.control.at, to) && Resume(s) == t
    ensures to < |s.list| <==> !NoneFinished(t)
  {
    hide Sound;
    to := if This(s).context.Yield? then |s.list| else s.control.at;
    if to < |s.list| {
      assert t.list[to].finished;
    }
  }

  lemma AfterYield(s: State, t: State, u: State, to: nat)
    requires Running(s) && This(s).context.Yield? && t == Step(s) && t.control.Runs? && Round(t.list, u.list, t.control.at, to)
    ensures Round(s.list, u.list, s.control.at, to)
  {
    hide Sound;
    var shift, at := |u.list| - |s.list|, s.control.at;
    forall i | 0 <= i < |s.list| && i != at ensures t.list[i] == s.list[i] {}
    assert u.list[shift + at] == t.list[at] && Sliced(s.list[at], t.list[at]);
    forall i | 0 <= i < |s.list| && (i < at || i > to) ensures u.list[shift + i] == s.list[i] {
      assert u.list[shift + i] == t.list[i];
    }
    forall i | at <= i < to ensures Sliced(s.list[i], u.list[shift + i]) {
      assert i > at ==> Sliced(t.list[i], u.list[shift + i]);
    }
  }

  /** t is s after a coroutine has been created by the one in control, which has made no switch. */
  ghost predicate Created(s: State, t: State, at: nat) {
    && at < |s.list| && |t.list| == |s.list| + 1 && Untouched(t.list[0])
    && (forall i :: 0 <= i < |s.list| && i != at ==> t.list[i + 1] == s.list[i])
    && t.list[at + 1] == s.list[at].(context := t.list[at + 1].context)
    && Yields(t.list[at + 1].context) == Yields(s.list[at].context)
  }

  lemma NewCreates(s: State)
    requires Running(s) && This(s).context.New?
    ensures Created(s, Step(s), s.control.at) && Step(s).control == Runs(s.control.at + 1)
  {
    hide Sound;
    var t, at := Step(s), s.control.at;
    assert t.list[0] == Fresh(s.next, This(s).context.child);
    assert t.list[at + 1] == s.list[at].(context := s.list[at].context.rest);
  }

  lemma AfterNew(s: State, t: State, u: State, to: nat)
    requires Running(s) && This(s).context.New? && t == Step(s) && Round(t.list, u.list, t.control.at, to)
    ensures to >= 1 && Round(s.list, u.list, s.control.at, to - 1)
  {
    NewCreates(s);
    hide Running, Step;
    RoundOfCreated(s, t, u, s.control.at, to);
  }

  lemma RoundOfCreated(s: State, t: State, u: State, at: nat, to: nat)
    requires Created(s, t, at) && Round(t.list, u.list, at + 1, to)
    ensures to >= 1 && Round(s.list, u.list, at, to - 1)
  {
    hide Yields;
    var shift := |u.list| - |s.list|;
    assert u.list[shift - 1] == t.list[0];
    forall i | 0 <= i < |s.list| && (i < at || i > to - 1) ensures u.list[shift + i] == s.list[i] {
      assert u.list[(shift - 1) + (i + 1)] == t.list[i + 1];
    }
    forall i | at <= i < to - 1 ensures Sliced(s.list[i], u.list[shift + i]) && Yields(s.list[i].context) > 0 {
      assert Sliced(t.list[i + 1], u.list[(shift - 1) + (i + 1)]) && Yields(t.list[i + 1].context) > 0;
    }
    if to - 1 < |s.list| {
      assert EndedNow(t.list[to], u.list[(shift - 1) + to]) && Yields(t.list[to].context) == 0;
    }
  }

  // ---------------------------------------------------------------- who is kept waiting

  lemma TwiceCounted(ids: seq<nat>, a: nat, b: nat)
    requires a < b < |ids| && ids[a] == ids[b]
    ensures multiset(ids)[ids[a]] >= 2
  {
    assert ids == ids[..a] + [ids[a]] + ids[a + 1..b] + [ids[b]] + ids[b + 1..];
  }

  lemma IdsDiffer(s: State, i: nat, j: nat)
    requires Sound(s) && i < |s.list| && j < |s.list| && s.list[i].id == s.list[j].id
    ensures i == j
  {
    var ids := Ids(s.list);
    assert Count(s, ids[i]) <= 1;
    hide Sound, Honest;
    if i < j { TwiceCounted(ids, i, j); }
    if j < i { TwiceCounted(ids, j, i); }
  }

  /** u is s after one round of a wait, up to coroutine `to`, and t what the wait comes to. */
  ghost predicate WaitsBy(s: State, to: nat, u: State, t: State) {
    && Round(s.list, u.list, 0, to) && Sound(u)
    && (if to < |s.list| then var k := |u.list| - |s.list| + to; t.list == u.list[..k] + u.list[k + 1..]
        else Waiting(u) && !u.crashed && u.control == Scheduler && t == SchedWait(u).0 && Work(u.list) < Work(s.list))
  }

  lemma WaitRound(s: State) returns (to: nat, u: State)
    requires Waiting(s) && s.list != []
    ensures s.control == Scheduler && !s.crashed && WaitsBy(s, to, u, SchedWait(s).0)
    ensures u == Resume(s.(waiting := true, control := Runs(0))).(waiting := false)
  {
    hide Sound, WaitsBy;
    var r := s.(waiting := true, control := Runs(0));
    StartRunning(s);
    to := RoundSlices(r);
    WaitingParts(s);
    u := Resume(r).(waiting := false);
    if to < |s.list| { RoundEnds(s, to); } else { RoundGoesOn(s, to); }
  }

  lemma RoundEnds(s: State, to: nat)
    requires Waiting(s) && to < |s.list| && Running(s.(waiting := true, control := Runs(0)))
    requires Round(s.list, Resume(s.(waiting := true, control := Runs(0))).list, 0, to)
    ensures WaitsBy(s, to, Resume(s.(waiting := true, control := Runs(0))).(waiting := false), SchedWait(s).0)
  {
    hide Waiting, Sound, Round, Resume, SchedWait, NoneFinished, OneFinished;
    var r := s.(waiting := true, control := Runs(0));
    var i := ResumeReturns(r);
    var u := Resume(r);
    OnlyEnded(s, u, i, to);
    WaitingParts(s);
    WaitUnfolds(s);
    HandOut(u, i);
    OneFinishedSound(u, i);
    SameSound(u, u.(waiting := false));
  }

  lemma OneFinishedSound(s: State, i: nat)
    requires OneFinished(s, i)
    ensures Sound(s) && !s.crashed && s.list != []
  {
  }

  /** The coroutine at which a round stops is the one that has finished. */
  lemma OnlyEnded(s: State, u: State, i: nat, to: nat)
    requires Round(s.list, u.list, 0, to) && to < |s.list| && (Waiting(u) || OneFinished(u, i))
    ensures OneFinished(u, i) && i == |u.list| - |s.list| + to
  {
    hide Sound, Yields;
    assert u.list[|u.list| - |s.list| + to].finished;
  }

  lemma RoundGoesOn(s: State, to: nat)
    requires Waiting(s) && to == |s.list| > 0 && Running(s.(waiting := true, control := Runs(0)))
    requires NoneFinished(Resume(s.(waiting := true, control := Runs(0))))
    requires Round(s.list, Resume(s.(waiting := true, control := Runs(0))).list, 0, to)
    ensures WaitsBy(s, to, Resume(s.(waiting := true, control := Runs(0))).(waiting := false), SchedWait(s).0)
  {
    hide Sound;
    var r := s.(waiting := true, control := Runs(0));
    var i := ResumeReturns(r);
    ResumeWorks(r);
    var u := Resume(r);
    hide Resume, SchedWait, Work;
    WaitUnfolds(s);
    WaitingParts(s);
    StillWaiting(u);
    SoundOf(u.(waiting := false));
    WaitingParts(u.(waiting := false));
  }

  lemma SoundOf(s: State)
    requires Waiting(s)
    ensures Sound(s)
  {
  }

  /** No coroutine loses switches in a wait. */
  lemma {:induction false} SwitchesGrow(s: State, i: nat, c: Coro)
    requires Waiting(s) && i < |s.list| && c in SchedWait(s).0.list && c.id == s.list[i].id
    ensures c.switches >= s.list[i].switches
    decreases Work(s.list)
  {
    hide Waiting, Sound, SchedWait;
    var to, u := WaitRound(s);
    var m := |u.list| - |s.list| + i;
    RoundKeepsIds(s, u, to, i);
    if to < |s.list| {
      var k :| 0 <= k < |u.list| && u.list[k] == c;
      IdsDiffer(u, k, m);
    } else {
      SwitchesGrow(u, m, c);
    }
  }

  lemma RoundKeepsIds(s: State, u: State, to: nat, i: nat)
    requires Round(s.list, u.list, 0, to) && i < |s.list|
    ensures var k := |u.list| - |s.list| + i; 0 <= k < |u.list| && u.list[k].id == s.list[i].id && u.list[k].switches >= s.list[i].switches
    ensures var k := |u.list| - |s.list| + i; i < to ==> u.list[k].switches > s.list[i].switches
    ensures var k := |u.list| - |s.list| + i; i > to ==> u.list[k] == s.list[i]
  {
    hide Yields;
  }

  /**
   A coroutine is kept waiting through a call of coro_sched_wait exactly if one before it
   in the list ends without another yield.
   */
  lemma KeptWaiting(s: State, i: nat)
    requires Waiting(s) && i < |s.list|
    ensures s.list[i] in SchedWait(s).0.list <==> exists j :: 0 <= j < i && Yields(s.list[j].context) == 0
  {
    hide Waiting, Sound, SchedWait, Yields;
    var to, u := WaitRound(s);
    var m := |u.list| - |s.list| + i;
    RoundKeepsIds(s, u, to, i);
    if i > to {
      assert Yields(s.list[to].context) == 0;
      InRest(u.list, |u.list| - |s.list| + to, m);
    } else {
      assert forall j :: 0 <= j < i ==> Yields(s.list[j].context) > 0;
      SlicedIsGone(s, to, u, i);
    }
  }

  lemma SlicedIsGone(s: State, to: nat, u: State, i: nat)
    requires Waiting(s) && i < |s.list| && i <= to && WaitsBy(s, to, u, SchedWait(s).0)
    ensures s.list[i] !in SchedWait(s).0.list
  {
    hide Waiting, Sound, SchedWait, Yields;
    var m := |u.list| - |s.list| + i;
    RoundKeepsIds(s, u, to, i);
    if to < |s.list| {
      NotInRest(u, |u.list| - |s.list| + to, m, s.list[i], i < to);
    } else if s.list[i] in SchedWait(u).0.list {
      SwitchesGrow(u, m, s.list[i]);
      assert false;
    }
  }

  lemma InRest(list: seq<Coro>, k: nat, m: nat)
    requires k < m < |list|
    ensures list[m] in list[..k] + list[k + 1..]
  {
    var rest := list[..k] + list[k + 1..];
    assert rest[m - 1] == list[m];
  }

  lemma NotInRest(u: State, k: nat, m: nat, c: Coro, sliced: bool)
    requires Sound(u) && k < |u.list| && m <= k && u.list[m].id == c.id && (if sliced then u.list[m] != c else m == k)
    ensures c !in u.list[..k] + u.list[k + 1..]
  {
    hide Sound;
    var rest := u.list[..k] + u.list[k + 1..];
    forall n | 0 <= n < |rest| ensures rest[n] != c {
      var o := if n < k then n else n + 1;
      assert rest[n] == u.list[o];
      if u.list[o].id == c.id { IdsDiffer(u, o, m); }
    }
  }

  // ---------------------------------------------------------------- unfairness

  /** Creates a coroutine that creates a coroutine, n deep, and ends at once. */
  function Chain(n: nat): Script {
    if n == 0 then Finish(0) else New(Chain(n - 1), Finish(0))
  }

  function Waits(s: State, k: nat): State
    decreases k
  {
    if k == 0 || s.crashed || s.control.Runs? then s else Waits(SchedWait(s).0, k - 1)
  }

  /** After each end the scheduler starts again from the front of the list, where new coroutines go. */
  lemma ChainLink(s: State, n: nat)
    requires Waiting(s) && s.list != [] && s.list[0].context == Chain(n)
    ensures var t := SchedWait(s).0;
            if n == 0 then t.list == s.list[1..]
            else t.list != [] && t.list[1..] == s.list[1..] && t.list[0].context == Chain(n - 1)
  {
    hide Sound;
    var r := s.(waiting := true, control := Runs(0));
    StartRunning(s);
    WaitingParts(s);
    StepRunning(r);
    if n == 0 {
      assert Resume(r) == Step(r);
      HandOut(Step(r), 0);
    } else {
      StepRunning(Step(r));
      assert Step(Step(r)).control == Scheduler && Resume(Step(r)) == Step(Step(r));
      assert Resume(r) == Resume(Step(r));
      HandOut(Resume(r), 1);
      var t := SchedWait(s).0;
      assert t.list == [Fresh(s.next, Chain(n - 1))] + s.list[1..];
    }
  }

  /** So others can be kept from running through any number of waits, each of which hands out a coroutine. */
  lemma {:induction false} OthersStarve(s: State, n: nat)
    requires Waiting(s) && s.list != [] && s.list[0].context == Chain(n)
    ensures Waits(s, n + 1).list == s.list[1..]
    decreases n
  {
    hide Sound;
    ChainLink(s, n);
    WaitReturns(s);
    WaitingParts(s);
    var t := SchedWait(s).0;
    if n > 0 {
      OthersStarve(t, n - 1);
    } else {
      assert Waits(t, 0) == t;
    }
  }

  // ---------------------------------------------------------------- without creations, all are served

  predicate Creates(script: Script) {
    match script
    case Finish(_) => false
    case Yield(rest) => Creates(rest)
    case New(_, _) => true
  }

  predicate NoneCreates(list: seq<Coro>) { forall i :: 0 <= i < |list| ==> !Creates(list[i].context) }

  lemma {:induction false} ResumeCreatesNone(s: State)
    requires CanRun(s) && NoneCreates(s.list)
    ensures |Resume(s).list| == |s.list| && NoneCreates(Resume(s).list)
    decreases Work(s.list)
  {
    StepWorks(s);
    assert !Creates(This(s).context);
    if CanRun(Step(s)) {
      ResumeCreatesNone(Step(s));
    }
  }

  /** c has had a slice: it has ended and was handed out, or has made another switch. */
  ghost predicate Served(s: State, c: Coro) {
    c.id < s.next && forall d :: d in s.list && d.id == c.id ==> d.switches > c.switches
  }

  /** Once handed out, always. */
  lemma HandedOutStays(s: State, id: nat)
    requires Waiting(s) && id < s.next && id !in Ids(s.list)
    ensures id !in Ids(SchedWait(s).0.list)
  {
    WaitReturns(s);
    var t := SchedWait(s).0;
    hide SchedWait, Honest, NoneFinished;
    assert Count(s, id) == 1;
    assert multiset(s.returned)[id] == 1;
    assert multiset(t.returned)[id] >= 1 && Count(t, id) == 1;
    assert id !in multiset(Ids(t.list));
  }

  lemma ServedStays(s: State, c: Coro)
    requires Waiting(s) && Served(s, c)
    ensures Served(SchedWait(s).0, c)
  {
    WaitReturns(s);
    var t := SchedWait(s).0;
    hide SchedWait, Waiting;
    forall d | d in t.list && d.id == c.id ensures d.switches > c.switches {
      var j :| 0 <= j < |t.list| && t.list[j] == d;
      assert Ids(t.list)[j] == c.id;
      if c.id !in Ids(s.list) { HandedOutStays(s, c.id); }
      var i :| 0 <= i < |s.list| && Ids(s.list)[i] == c.id;
      assert s.list[i] in s.list;
      SwitchesGrow(s, i, d);
    }
  }

  lemma {:induction false} ServedForGood(s: State, c: Coro, k: nat)
    requires Waiting(s) && Served(s, c)
    ensures Served(Waits(s, k), c)
    decreases k
  {
    if k > 0 {
      WaitReturns(s);
      ServedStays(s, c);
      WaitingParts(s);
      hide Waiting, Served, SchedWait;
      ServedForGood(SchedWait(s).0, c, k - 1);
    }
  }

  /** Reached by the first round of a wait. */
  lemma ReachedIsServed(s: State, to: nat, u: State, i: nat)
    requires Waiting(s) && i < |s.list| && i <= to && WaitsBy(s, to, u, SchedWait(s).0)
    ensures Served(SchedWait(s).0, s.list[i])
  {
    hide Waiting, SchedWait, Sound, Round, Work;
    WaitingParts(s);
    NextGrows(s);
    ListedBelow(s, i);
    var t, m := SchedWait(s).0, |u.list| - |s.list| + i;
    RoundKeepsIds(s, u, to, i);
    forall d | d in t.list && d.id == s.list[i].id ensures d.switches > s.list[i].switches {
      if to < |s.list| {
        RestDiffers(u, |u.list| - |s.list| + to, m, d);
      } else {
        SwitchesGrow(u, m, d);
      }
    }
  }

  lemma NextGrows(s: State)
    requires Waiting(s)
    ensures s.control == Scheduler && !s.crashed && SchedWait(s).0.next >= s.next
  {
    hide Sound, SchedWait, NoneFinished;
    WaitReturns(s);
  }

  lemma ListedBelow(s: State, i: nat)
    requires Waiting(s) && i < |s.list|
    ensures s.list[i].id < s.next
  {
    assert Ids(s.list)[i] == s.list[i].id;
    assert Count(s, s.list[i].id) >= 1;
  }

  /** Of the coroutine at m, what is left of the list holds that very one, or nothing if it is the one removed. */
  lemma RestDiffers(u: State, k: nat, m: nat, d: Coro)
    requires Sound(u) && k < |u.list| && m < |u.list| && d in u.list[..k] + u.list[k + 1..] && d.id == u.list[m].id
    ensures m != k && d == u.list[m]
  {
    hide Sound;
    var rest := u.list[..k] + u.list[k + 1..];
    var n :| 0 <= n < |rest| && rest[n] == d;
    var o := if n < k then n else n + 1;
    assert rest[n] == u.list[o];
    IdsDiffer(u, o, m);
  }

  /** Behind the one that ended in the first round a coroutine moves up by one. */
  lemma NotReached(s: State, to: nat, u: State, i: nat)
    requires Waiting(s) && to < i < |s.list| && WaitsBy(s, to, u, SchedWait(s).0) && |u.list| == |s.list| && NoneCreates(u.list)
    ensures var t := SchedWait(s).0; i - 1 < |t.list| && t.list[i - 1] == s.list[i] && NoneCreates(t.list)
  {
    hide Waiting, SchedWait, Sound, Creates;
    WaitingParts(s);
    var t := SchedWait(s).0;
    RoundKeepsIds(s, u, to, i);
    assert t.list == u.list[..to] + u.list[to + 1..];
    forall j | 0 <= j < |t.list| ensures !Creates(t.list[j].context) {
      assert t.list[j] == u.list[if j < to then j else j + 1];
    }
  }

  /**
   When no coroutine of the list creates others, each one is served in turn: the one
   behind i others has had a slice after i + 1 waits.
   */
  lemma {:induction false} ServedWithin(s: State, i: nat)
    requires Waiting(s) && i < |s.list| && NoneCreates(s.list)
    ensures Served(Waits(s, i + 1), s.list[i])
    decreases i
  {
    hide Waiting, SchedWait, Sound, NoneCreates, Served, WaitsBy;
    WaitingParts(s);
    var to, u := WaitRound(s);
    ResumeCreatesNone(s.(waiting := true, control := Runs(0)));
    WaitReturns(s);
    var t := SchedWait(s).0;
    if i <= to {
      ReachedIsServed(s, to, u, i);
      ServedForGood(t, s.list[i], i);
    } else {
      NotReached(s, to, u, i);
      ServedWithin(t, i - 1);
    }
  }
}
