/**
 The reference coroutines over a linked list. A coroutine's context is what its function
 has yet to do, and siglongjmp a change of the coroutine in control.
 */
module ReferenceLibcoro {
  import M = SchedulerModel

  class CoroNode {
    var next: CoroNode?
    var prev: CoroNode?
    var context: M.Script
    var switches: nat
    var isFinished: bool
    var ret: int
    const func: M.Script
    ghost const id: nat

    constructor (func: M.Script, ghost id: nat)
      ensures this.next == null && this.prev == null && Value(this) == M.Fresh(id, func)
    {
      next, prev, context, switches, isFinished, ret := null, null, func, 0, false, 0;
      this.func, this.id := func, id;
    }
  }

  ghost function Value(c: CoroNode): M.Coro
    reads c`context, c`switches, c`isFinished, c`ret
  {
    M.Coro(c.id, c.func, c.context, c.switches, c.isFinished, c.ret)
  }

  ghost predicate Linked(list: seq<CoroNode>, i: nat)
    requires i < |list|
    reads {list[i]}`next, {list[i]}`prev
  {
    && list[i].next == (if i + 1 < |list| then list[i + 1] else null)
    && list[i].prev == (if i > 0 then list[i - 1] else null)
  }

  ghost function Nodes(list: seq<CoroNode>): set<CoroNode> { set c | c in list }

  ghost predicate IsList(list: seq<CoroNode>)
    reads Nodes(list)`next, Nodes(list)`prev
  {
    && (forall i, j :: 0 <= i < j < |list| ==> list[i] != list[j])
    && (forall i {:trigger Linked(list, i)} :: 0 <= i < |list| ==> Linked(list, i))
  }

  ghost function Values(list: seq<CoroNode>): (r: seq<M.Coro>)
    reads Nodes(list)`context, Nodes(list)`switches, Nodes(list)`isFinished, Nodes(list)`ret
    ensures |r| == |list| && forall i :: 0 <= i < |r| ==> r[i] == Value(list[i])
  {
    if list == [] then [] else [Value(list[0])] + Values(list[1..])
  }

  lemma ConsValues(c: CoroNode, list: seq<CoroNode>)
    ensures Values([c] + list) == [Value(c)] + Values(list)
  {
    assert ([c] + list)[1..] == list;
  }

  lemma RemoveValues(list: seq<CoroNode>, k: nat)
    requires k < |list|
    ensures Values(list[..k] + list[k + 1..]) == Values(list)[..k] + Values(list)[k + 1..]
  {
    hide *;
    var rest := list[..k] + list[k + 1..];
    var x, y := Values(rest), Values(list)[..k] + Values(list)[k + 1..];
    forall i | 0 <= i < |rest| ensures x[i] == y[i] {
      assert x[i] == Value(rest[i]) && Values(list)[if i < k then i else i + 1] == Value(list[if i < k then i else i + 1]);
    }
  }

  /** The globals of the library; `running` null stands for the scheduler. */
  class Library {
    var coroList: CoroNode?
    var running: CoroNode?
    var isSchedWaiting: bool
    var crashed: bool
    ghost var list: seq<CoroNode>
    ghost var created: nat
    ghost var returned: seq<nat>

    ghost predicate Valid()
      reads this`coroList, this`list, Nodes(list)`next, Nodes(list)`prev
    {
      IsList(list) && coroList == if list == [] then null else list[0]
    }

    /** Who has control. */
    ghost predicate At(control: M.Control)
      reads this`running, this`list
    {
      match control
      case Scheduler => running == null
      case Runs(i) => i < |list| && running == list[i]
    }

    ghost function Model(control: M.Control): M.State
      reads this, Nodes(list)`context, Nodes(list)`switches, Nodes(list)`isFinished, Nodes(list)`ret
    {
      M.State(Values(list), control, isSchedWaiting, crashed, created, returned)
    }

    /** coro_sched_init */
    constructor ()
      ensures Valid() && At(M.Scheduler) && Model(M.Scheduler) == M.Init()
    {
      coroList, running, isSchedWaiting, crashed := null, null, false, false;
      list, created, returned := [], 0, [];
    }

    /** coro_list_add */
    method ListAdd(c: CoroNode)
      requires Valid() && c !in list
      modifies `coroList, `list, c`next, c`prev, Nodes(list)`prev
      ensures Valid() && list == [c] + old(list)
    {
      c.next := coroList;
      c.prev := null;
      if coroList != null {
        coroList.prev := c;
      }
      coroList := c;
      ghost var was := list;
      list := [c] + list;
      forall i | 0 <= i < |list| ensures Linked(list, i) {
        assert i > 0 ==> old(Linked(was, i - 1));
      }
    }

    /** coro_list_delete */
    method ListDelete(c: CoroNode, ghost k: nat)
      requires Valid() && k < |list| && list[k] == c
      modifies `coroList, `list, Nodes(list)`next, Nodes(list)`prev
      ensures Valid() && list == old(list[..k] + list[k + 1..])
    {
      assert Linked(list, k);
      var prev, next := c.prev, c.next;
      if prev != null {
        prev.next := next;
      }
      if next != null {
        next.prev := prev;
      }
      if prev == null {
        coroList := next;
      }
      ghost var was := list;
      list := list[..k] + list[k + 1..];
      forall i | 0 <= i < |list| ensures Linked(list, i) {
        assert old(Linked(was, if i < k then i else i + 1));
      }
    }

    /** coro_new */
    method CoroNew(func: M.Script, ghost control: M.Control) returns (c: CoroNode, ghost after: M.Control)
      requires Valid() && At(control)
      modifies `coroList, `list, `created, Nodes(list)`prev
      ensures Valid() && At(after) && fresh(c) && Nodes(list) == old(Nodes(list)) + {c}
      ensures Model(after) == M.CoroNew(old(Model(control)), func)
    {
      hide IsList, Values, Nodes;
      c := NewListed(func);
      created := created + 1;
      after := if control.Runs? then M.Runs(control.at + 1) else control;
    }

    method NewListed(func: M.Script) returns (c: CoroNode)
      requires Valid()
      modifies `coroList, `list, Nodes(list)`prev
      ensures Valid() && fresh(c) && list == [c] + old(list) && Nodes(list) == old(Nodes(list)) + {c}
      ensures Values(list) == [M.Fresh(created, func)] + old(Values(list))
    {
      hide IsList, Values;
      ghost var was, values := list, Values(list);
      c := new CoroNode(func, created);
      ListAdd(c);
      assert Value(c) == M.Fresh(created, func) && Values(was) == values;
      ConsValues(c, was);
    }

    /** coro_yield, of a coroutine. */
    method CoroYield(ghost control: M.Control) returns (ghost after: M.Control)
      requires Valid() && At(control) && running != null && !crashed
      modifies `running, running`switches
      ensures Valid() && At(after)
      ensures Model(after) == M.CoroYield(old(Model(control)))
    {
      assert Linked(list, control.at);
      running.switches := running.switches + 1;
      running := running.next;
      after := if running == null then M.Scheduler else M.Runs(control.at + 1);
    }

    /** What the coroutine in control does next. */
    method Step(ghost control: M.Control) returns (ghost after: M.Control)
      requires Valid() && At(control) && running != null && !crashed
      modifies this, Nodes(list)
      ensures Valid() && At(after) && fresh(Nodes(list) - old(Nodes(list)))
      ensures Model(after) == M.Step(old(Model(control)))
    {
      hide IsList;
      after := control;
      if running.isFinished {
        crashed := true;
        return;
      }
      match running.context
      case Finish(ret) =>
        CoroEnd(ret, control);
        after := M.Scheduler;
      case Yield(rest) =>
        SaveContext(rest, control);
        after := CoroYield(control);
      case New(child, rest) =>
        SaveContext(rest, control);
        var _, to := CoroNew(child, control);
        after := to;
    }

    method SaveContext(context: M.Script, ghost control: M.Control)
      requires Valid() && At(control) && running != null && !crashed
      modifies running`context
      ensures Valid() && At(control)
      ensures var s := old(Model(control)); Model(control) == M.SetThis(s, M.This(s).(context := context))
    {
      running.context := context;
    }

    /** The end of coro_body. */
    method CoroEnd(ret: int, ghost control: M.Control)
      requires Valid() && At(control) && running != null && !crashed
      modifies `running, `crashed, running`ret, running`isFinished
      ensures Valid() && At(M.Scheduler)
      ensures Model(M.Scheduler) == M.CoroEnd(old(Model(control)), ret)
    {
      assert forall i, j :: 0 <= i < j < |list| ==> list[i] != list[j];
      hide IsList;
      running.ret := ret;
      running.isFinished := true;
      if !isSchedWaiting {
        crashed := true;
      }
      running := null;
    }

    /** coro_yield_to, of the scheduler: comes back when control does. */
    method Resume(to: CoroNode, ghost at: nat)
      requires Valid() && at < |list| && list[at] == to && !crashed
      modifies this, Nodes(list)
      ensures Valid() && fresh(Nodes(list) - old(Nodes(list)))
      ensures crashed || At(M.Scheduler)
      ensures Model(M.Resume(old(Model(M.Runs(at)))).control) == M.Resume(old(Model(M.Runs(at))))
    {
      running := to;
      ghost var control := M.Runs(at);
      ghost var start := Model(control);
      while running != null && !crashed
        invariant Valid() && At(control) && fresh(Nodes(list) - old(Nodes(list)))
        invariant if running != null && !crashed then M.CanRun(Model(control)) && M.Resume(Model(control)) == M.Resume(start) else Model(control) == M.Resume(start)
        decreases if running == null || crashed then 0 else 1 + M.Work(Values(list))
      {
        M.StepWorks(Model(control));
        control := Step(control);
      }
    }

    /** coro_sched_wait */
    method SchedWait() returns (c: CoroNode?)
      requires Valid() && At(M.Scheduler) && !crashed
      modifies this, Nodes(list)
      ensures Valid() && fresh(Nodes(list) - old(Nodes(list)))
      ensures var (t, found) := M.SchedWait(old(Model(M.Scheduler)));
              Model(t.control) == t && (if found.Some? then c != null && Value(c) == found.coro else c == null)
    {
      hide IsList, Values, M.SchedWait, M.Resume, M.Work, M.FirstFinished;
      ghost var start := Model(M.Scheduler);
      Empty();
      while coroList != null
        invariant Valid() && At(M.Scheduler) && fresh(Nodes(list) - old(Nodes(list))) && !crashed
        invariant Model(M.Scheduler).control == M.Scheduler && !Model(M.Scheduler).crashed
        invariant (coroList == null) == (Model(M.Scheduler).list == [])
        invariant M.SchedWait(Model(M.Scheduler)) == M.SchedWait(start)
        decreases M.Work(Model(M.Scheduler).list)
      {
        M.WaitUnfolds(Model(M.Scheduler));
        c := FindFinished();
        if c != null {
          HandOut(c);
          return;
        }
        RunCoroutines();
        Empty();
        if crashed {
          return null;
        }
      }
      M.WaitUnfolds(Model(M.Scheduler));
      c := null;
    }

    lemma Empty()
      requires Valid()
      ensures Model(M.Scheduler).control == M.Scheduler && Model(M.Scheduler).crashed == crashed
      ensures (coroList == null) == (Model(M.Scheduler).list == [])
    {
    }

    method HandOut(c: CoroNode)
      requires Valid() && At(M.Scheduler) && var k := M.FirstFinished(Model(M.Scheduler).list); k < |list| && list[k] == c
      modifies `coroList, `list, `returned, Nodes(list)`next, Nodes(list)`prev
      ensures Valid() && At(M.Scheduler) && Nodes(list) <= old(Nodes(list))
      ensures var s := old(Model(M.Scheduler)); var k := M.FirstFinished(s.list);
              k < |s.list| && Model(M.Scheduler) == M.Remove(s, k) && Value(c) == s.list[k]
    {
      hide IsList, Values, M.FirstFinished;
      ghost var k := M.FirstFinished(Values(list));
      RemoveValues(list, k);
      ListDelete(c, k);
      returned := returned + [c.id];
    }

    method RunCoroutines()
      requires Valid() && At(M.Scheduler) && coroList != null && !crashed
      modifies this, Nodes(list)
      ensures Valid() && fresh(Nodes(list) - old(Nodes(list))) && (crashed || At(M.Scheduler))
      ensures var t := M.Resume(old(Model(M.Scheduler)).(waiting := true, control := M.Runs(0))).(waiting := false);
              Model(t.control) == t
    {
      hide IsList, M.Resume;
      isSchedWaiting := true;
      Resume(coroList, 0);
      isSchedWaiting := false;
    }

    /** The scan of coro_sched_wait. */
    method FindFinished() returns (c: CoroNode?)
      requires Valid()
      ensures var k := M.FirstFinished(Model(M.Scheduler).list);
              if k < |list| then c == list[k] else c == null
    {
      c := coroList;
      ghost var i := 0;
      ghost var values := Values(list);
      while c != null
        invariant i <= |list| && c == (if i < |list| then list[i] else null)
        invariant i + M.FirstFinished(values[i..]) == M.FirstFinished(values)
        decreases |list| - i
      {
        assert Linked(list, i);
        if c.isFinished {
          return;
        }
        assert values[i..][1..] == values[i + 1..];
        c := c.next;
        i := i + 1;
      }
    }
  }
}
