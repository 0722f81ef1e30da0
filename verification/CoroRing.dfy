/**
 The event loop of the sentinel ring as a value: the coroutines in list order, behind
 the sentinel, and the index of the one that runs. A context is what its coroutine has
 yet to do, so switching contexts is a change of `cur`.
 */
module CoroRing {

  /** What a coroutine will do; a function that never ends is no Script. */
  datatype Script =
    | Return
    | Yield(rest: Script)
    | Create(child: Script, rest: Script)

  datatype Coro = Coro(id: nat, context: Script)

  /** `next` coroutines were created so far, those in `done` have returned, in this order. */
  datatype Loop = Loop(nodes: seq<Coro>, cur: nat, next: nat, done: seq<nat>)

  predicate Running(s: Loop) { s.cur < |s.nodes| }

  function Current(s: Loop): Coro
    requires Running(s)
  {
    s.nodes[s.cur]
  }

  function Ids(nodes: seq<Coro>): (r: seq<nat>)
    ensures |r| == |nodes| && forall i :: 0 <= i < |r| ==> r[i] == nodes[i].id
  {
    seq(|nodes|, i requires 0 <= i < |nodes| => nodes[i].id)
  }

  // ---------------------------------------------------------------- operations

  function Init(): Loop { Loop([], 0, 0, []) }

  function CoroCreate(s: Loop, script: Script): Loop {
    s.(nodes := s.nodes + [Coro(s.next, script)], next := s.next + 1)
  }

  /** The node after the current one, the sentinel skipped. */
  function After(s: Loop): nat
    requires Running(s)
  {
    if s.cur + 1 == |s.nodes| then 0 else s.cur + 1
  }

  function SaveContext(s: Loop, context: Script): Loop
    requires Running(s)
  {
    s.(nodes := s.nodes[s.cur := Current(s).(context := context)])
  }

  function CoroYield(s: Loop): Loop
    requires Running(s)
  {
    if |s.nodes| == 1 then s else s.(cur := After(s))
  }

  /** The running coroutine has returned: back in loop_start, its node is unlinked. */
  function Retire(s: Loop): Loop
    requires Running(s)
  {
    Loop(s.nodes[..s.cur] + s.nodes[s.cur + 1..], if s.cur + 1 == |s.nodes| then 0 else s.cur, s.next, s.done + [Current(s).id])
  }

  /** What the running coroutine does next. */
  function Tick(s: Loop): Loop
    requires Running(s)
  {
    match Current(s).context
    case Return => Retire(s)
    case Yield(rest) => CoroYield(SaveContext(s, rest))
    case Create(child, rest) => CoroCreate(SaveContext(s, rest), child)
  }

  function Size(script: Script): (n: nat)
    ensures n >= 1
  {
    match script
    case Return => 1
    case Yield(rest) => 1 + Size(rest)
    case Create(child, rest) => 1 + Size(child) + Size(rest)
  }

  function Work(nodes: seq<Coro>): nat {
    if nodes == [] then 0 else Work(nodes[..|nodes| - 1]) + Size(nodes[|nodes| - 1].context)
  }

  lemma {:induction false} WorkSplit(a: seq<Coro>, b: seq<Coro>)
    ensures Work(a + b) == Work(a) + Work(b)
  {
    if b == [] {
      assert a + b == a;
    } else {
      assert (a + b)[..|a + b| - 1] == a + b[..|b| - 1];
      WorkSplit(a, b[..|b| - 1]);
    }
  }

  /** Every tick does one piece of the work there is. */
  lemma TickWorks(s: Loop)
    requires Running(s)
    ensures Work(Tick(s).nodes) == Work(s.nodes) - 1
  {
    var x, c, y := s.nodes[..s.cur], Current(s), s.nodes[s.cur + 1..];
    assert s.nodes == x + [c] + y;
    WorkSplit(x + [c], y);
    WorkSplit(x, [c]);
    assert Work([c]) == Size(c.context) by { assert [c][..0] == []; }
    if c.context.Return? {
      WorkSplit(x, y);
    } else {
      var d := c.(context := c.context.rest);
      assert s.nodes[s.cur := d] == x + [d] + y;
      WorkSplit(x + [d], y);
      WorkSplit(x, [d]);
      assert Work([d]) == Size(d.context) by { assert [d][..0] == []; }
    }
  }

  lemma TickRunning(s: Loop)
    requires Running(s)
    ensures Running(Tick(s)) || Tick(s).nodes == []
  {
  }

  /** The loop of loop_start, until the ring is empty. */
  function Drive(s: Loop): (r: Loop)
    requires Running(s) || s.nodes == []
    ensures r.nodes == []
    decreases Work(s.nodes)
  {
    if s.nodes == [] then s
    else
      TickWorks(s);
      TickRunning(s);
      Drive(Tick(s))
  }

  lemma DriveNothing(s: Loop)
    requires s.nodes == []
    ensures Drive(s) == s
  {
  }

  lemma DriveTick(s: Loop)
    requires Running(s)
    ensures (Running(Tick(s)) || Tick(s).nodes == []) && Drive(s) == Drive(Tick(s))
  {
  }

  // ---------------------------------------------------------------- every coroutine returns once

  /** Each coroutine ever created is in the ring or has returned, and not both, and only once. */
  ghost predicate Accounted(s: Loop) {
    forall id: nat :: Count(s, id) == if id < s.next then 1 else 0
  }

  function Count(s: Loop, id: nat): nat { multiset(Ids(s.nodes))[id] + multiset(s.done)[id] }

  lemma InitAccounted()
    ensures Accounted(Init())
  {
  }

  lemma CreateAccounted(s: Loop, script: Script)
    requires Accounted(s)
    ensures Accounted(CoroCreate(s, script))
  {
    assert Ids(CoroCreate(s, script).nodes) == Ids(s.nodes) + [s.next];
    forall id: nat ensures Count(CoroCreate(s, script), id) == if id < s.next + 1 then 1 else 0 {
      assert Count(s, id) == if id < s.next then 1 else 0;
    }
  }

  lemma RetireAccounted(s: Loop)
    requires Accounted(s) && Running(s)
    ensures Accounted(Retire(s))
  {
    var ids, r := Ids(s.nodes), Ids(Retire(s).nodes);
    assert ids == ids[..s.cur] + [Current(s).id] + ids[s.cur + 1..];
    assert r == ids[..s.cur] + ids[s.cur + 1..];
    forall id: nat ensures Count(Retire(s), id) == if id < s.next then 1 else 0 {
      assert Count(s, id) == if id < s.next then 1 else 0;
    }
  }

  lemma SaveAccounted(s: Loop, context: Script)
    requires Accounted(s) && Running(s)
    ensures Accounted(SaveContext(s, context))
  {
    assert Ids(SaveContext(s, context).nodes) == Ids(s.nodes);
    forall id: nat ensures Count(SaveContext(s, context), id) == if id < s.next then 1 else 0 {
      assert Count(s, id) == if id < s.next then 1 else 0;
    }
  }

  lemma TickAccounted(s: Loop)
    requires Accounted(s) && Running(s)
    ensures Accounted(Tick(s))
  {
    match Current(s).context
    case Return => RetireAccounted(s);
    case Yield(rest) =>
      SaveAccounted(s, rest);
      forall id: nat ensures Count(Tick(s), id) == if id < s.next then 1 else 0 {
        assert Count(SaveContext(s, rest), id) == if id < s.next then 1 else 0;
      }
    case Create(child, rest) =>
      SaveAccounted(s, rest);
      CreateAccounted(SaveContext(s, rest), child);
  }

  /** loop_start ends, and then every coroutine, those created on the way too, has returned exactly once. */
  lemma {:induction false} AllReturnOnce(s: Loop)
    requires Accounted(s) && (Running(s) || s.nodes == [])
    ensures var r := Drive(s);
            r.next >= s.next && forall id: nat :: multiset(r.done)[id] == if id < r.next then 1 else 0
    decreases Work(s.nodes)
  {
    if s.nodes == [] {
      forall id: nat ensures multiset(s.done)[id] == if id < s.next then 1 else 0 {
        assert Count(s, id) == if id < s.next then 1 else 0;
      }
    } else {
      TickWorks(s);
      TickRunning(s);
      TickAccounted(s);
      AllReturnOnce(Tick(s));
    }
  }

  // ---------------------------------------------------------------- a rotating ready queue

  /** The coroutines in the order in which they will get to run. */
  function Queue(s: Loop): (q: seq<Coro>)
    requires Running(s)
    ensures |q| == |s.nodes| && q[0] == Current(s)
  {
    s.nodes[s.cur..] + s.nodes[..s.cur]
  }

  lemma YieldRotates(s: Loop)
    requires Running(s)
    ensures Running(CoroYield(s)) && Queue(CoroYield(s)) == Queue(s)[1..] + [Queue(s)[0]]
  {
  }

  lemma RetireDropsHead(s: Loop)
    requires Running(s) && |s.nodes| > 1
    ensures Running(Retire(s)) && Queue(Retire(s)) == Queue(s)[1..]
  {
  }

  /** A new coroutine goes to the end of the list, which is somewhere inside the queue. */
  lemma CreateInserts(s: Loop, script: Script)
    requires Running(s)
    ensures var at := |s.nodes| - s.cur;
            Running(CoroCreate(s, script)) && 1 <= at <= |Queue(s)| &&
            Queue(CoroCreate(s, script)) == Queue(s)[..at] + [Coro(s.next, script)] + Queue(s)[at..]
  {
  }

  lemma SaveSameOrder(s: Loop, context: Script)
    requires Running(s)
    ensures Running(SaveContext(s, context)) && Ids(Queue(SaveContext(s, context))) == Ids(Queue(s))
  {
  }

  // ---------------------------------------------------------------- fairness

  /** d runs before c. */
  ghost predicate Before(q: seq<nat>, d: nat, c: nat) {
    exists i, j :: 0 <= i < j < |q| && q[i] == d && q[j] == c
  }

  ghost predicate Distinct(q: seq<nat>) {
    forall i, j :: 0 <= i < j < |q| ==> q[i] != q[j]
  }

  lemma OneBefore(q: seq<nat>, d: nat, c: nat)
    requires Distinct(q) && d in q && c in q && d != c
    ensures Before(q, d, c) <==> !Before(q, c, d)
  {
    var i :| 0 <= i < |q| && q[i] == d;
    var j :| 0 <= j < |q| && q[j] == c;
  }

  /** What happens to a queue: its head leaves, its head goes to the end, or x comes in at p. */
  ghost predicate Moves(q: seq<nat>, r: seq<nat>, x: nat, p: nat) {
    && q != [] && (r == q[1..] || r == q[1..] + [q[0]] || (1 <= p <= |q| && r == q[..p] + [x] + q[p..]))
  }

  /** None of it changes the order of two others than the head. */
  lemma MovesKeepOrder(q: seq<nat>, r: seq<nat>, x: nat, p: nat, d: nat, c: nat)
    requires Moves(q, r, x, p) && Distinct(q) && Distinct(r) && d != c
    requires d in q && c in q && d in r && c in r && (r == q[1..] + [q[0]] ==> q[0] != d && q[0] != c)
    ensures Before(r, d, c) <==> Before(q, d, c)
  {
    OneBefore(q, d, c);
    OneBefore(r, d, c);
    if Before(r, d, c) {
      MovesBack(q, r, x, p, d, c);
    } else {
      MovesBack(q, r, x, p, c, d);
    }
  }

  lemma MovesBack(q: seq<nat>, r: seq<nat>, x: nat, p: nat, d: nat, c: nat)
    requires Moves(q, r, x, p) && Distinct(q) && Distinct(r) && d != c
    requires d in q && c in q && Before(r, d, c) && (r == q[1..] + [q[0]] ==> q[0] != d && q[0] != c)
    ensures Before(q, d, c)
  {
    var i, j :| 0 <= i < j < |r| && r[i] == d && r[j] == c;
    if r == q[1..] || r == q[1..] + [q[0]] {
      assert q[i + 1] == d && q[j + 1] == c;
    } else {
      var di :| 0 <= di < |q| && q[di] == d;
      var cj :| 0 <= cj < |q| && q[cj] == c;
      assert r[if di < p then di else di + 1] == d && r[if cj < p then cj else cj + 1] == c;
    }
  }

  /** The order of the ready queue. */
  function Order(s: Loop): seq<nat>
    requires Running(s)
  {
    Ids(Queue(s))
  }

  lemma OnceDistinct(q: seq<nat>)
    requires forall id :: id in q ==> multiset(q)[id] <= 1
    ensures Distinct(q)
  {
    forall i, j | 0 <= i < j < |q| ensures q[i] != q[j] {
      assert q == q[..i] + [q[i]] + q[i + 1..j] + [q[j]] + q[j + 1..];
      assert multiset(q)[q[i]] <= 1;
    }
  }

  lemma OrderOf(s: Loop)
    requires Running(s) && Accounted(s)
    ensures Distinct(Order(s)) && forall id :: id in Order(s) <==> id in Ids(s.nodes)
    ensures forall id :: id in Order(s) ==> id < s.next && id !in s.done
  {
    var ids := Ids(s.nodes);
    assert Order(s) == ids[s.cur..] + ids[..s.cur];
    assert ids == ids[..s.cur] + ids[s.cur..];
    var q := Order(s);
    assert multiset(q) == multiset(ids);
    forall id | id in q ensures multiset(q)[id] <= 1 {
      assert Count(s, id) <= 1;
    }
    OnceDistinct(q);
    forall id | id in q ensures id < s.next && id !in s.done {
      assert id in multiset(q) && Count(s, id) <= 1;
      assert id in s.done ==> id in multiset(s.done);
    }
    forall id ensures id in q <==> id in ids {
      assert id in multiset(q) <==> id in multiset(ids);
    }
  }

  function Ticks(s: Loop, k: nat): Loop
    decreases k
  {
    if k == 0 || !Running(s) then s else Ticks(Tick(s), k - 1)
  }

  /** c does not run in the next k ticks, but does then. */
  ghost predicate NextSlice(s: Loop, k: nat, c: nat)
    decreases k
  {
    && Running(s)
    && if k == 0 then Current(s).id == c else Current(s).id != c && NextSlice(Tick(s), k - 1, c)
  }

  /** The slices of d that end with a yield within k ticks. */
  function Slices(s: Loop, k: nat, d: nat): nat
    decreases k
  {
    if k == 0 || !Running(s) then 0
    else (if Current(s).id == d && Current(s).context.Yield? then 1 else 0) + Slices(Tick(s), k - 1, d)
  }

  /** A coroutine that has returned stays out of the ring. */
  lemma {:induction false} GoneForGood(s: Loop, k: nat, d: nat)
    requires Accounted(s) && d in s.done
    ensures d !in Ids(Ticks(s, k).nodes)
    decreases k
  {
    if k == 0 || !Running(s) {
      assert d in multiset(s.done) && Count(s, d) <= 1;
      assert d in Ids(s.nodes) ==> d in multiset(Ids(s.nodes));
    } else {
      TickAccounted(s);
      GoneForGood(Tick(s), k - 1, d);
    }
  }

  /** One tick of another coroutine than c, d or not d. */
  lemma TickOrder(s: Loop, c: nat, d: nat)
    requires Accounted(s) && Running(s) && Running(Tick(s)) && c != d && Current(s).id != c
    requires c in Ids(s.nodes) && d in Ids(s.nodes) && d in Ids(Tick(s).nodes)
    ensures c in Ids(Tick(s).nodes)
    ensures var was, now := Before(Order(s), d, c), Before(Order(Tick(s)), d, c);
            if Current(s).id == d && Current(s).context.Yield? then was && !now else now == was
  {
    hide Accounted, Tick, Order;
    var t := Tick(s);
    TickAccounted(s);
    OrderOf(s);
    OrderOf(t);
    var q, r := Order(s), Order(t);
    TickMoves(s);
    if Current(s).id == d && Current(s).context.Yield? {
      HeadToEnd(q, r, d, c);
    } else {
      MovesKeepOrder(q, r, s.next, |q| - s.cur, d, c);
    }
  }

  lemma HeadToEnd(q: seq<nat>, r: seq<nat>, d: nat, c: nat)
    requires q != [] && r == q[1..] + [q[0]] && Distinct(q) && Distinct(r) && q[0] == d && c in q && c != d
    ensures Before(q, d, c) && !Before(r, d, c)
  {
    var j :| 0 <= j < |q| && q[j] == c;
    assert q[0] == d && q[j] == c;
    assert r[|r| - 1] == d;
  }

  lemma TickMoves(s: Loop)
    requires Running(s) && Running(Tick(s))
    ensures var q, r := Order(s), Order(Tick(s));
            && |q| == |s.nodes| && q[0] == Current(s).id && Moves(q, r, s.next, |q| - s.cur)
            && (Current(s).context.Yield? ==> r == q[1..] + [q[0]])
            && (r == q[1..] + [q[0]] ==> Current(s).context.Yield? || |q| == 1)
            && forall id :: id in q && id != q[0] ==> id in r
  {
    hide Queue, Before;
    match Current(s).context
    case Return =>
      RetireDropsHead(s);
      IdsOf(Queue(s), Queue(Tick(s)), 0, Coro(0, Return));
    case Yield(rest) =>
      SaveSameOrder(s, rest);
      YieldRotates(SaveContext(s, rest));
      IdsOf(Queue(SaveContext(s, rest)), Queue(Tick(s)), 0, Coro(0, Return));
    case Create(child, rest) =>
      SaveSameOrder(s, rest);
      CreateInserts(SaveContext(s, rest), child);
      IdsOf(Queue(SaveContext(s, rest)), Queue(Tick(s)), |s.nodes| - s.cur, Coro(s.next, child));
  }

  /** The moves of a queue of coroutines are moves of their ids. */
  lemma IdsOf(q: seq<Coro>, r: seq<Coro>, p: nat, c: Coro)
    requires q != []
    ensures r == q[1..] ==> Ids(r) == Ids(q)[1..]
    ensures r == q[1..] + [q[0]] ==> Ids(r) == Ids(q)[1..] + [Ids(q)[0]]
    ensures p <= |q| && r == q[..p] + [c] + q[p..] ==> Ids(r) == Ids(q)[..p] + [c.id] + Ids(q)[p..]
  {
  }

  /** Until c runs again, each coroutine that lives on gets exactly the slice it is due. */
  lemma {:induction false} DueSlices(s: Loop, k: nat, c: nat, d: nat)
    requires Accounted(s) && NextSlice(s, k, c) && c != d
    requires c in Ids(s.nodes) && d in Ids(s.nodes) && d in Ids(Ticks(s, k).nodes)
    ensures Slices(s, k, d) == if Before(Order(s), d, c) then 1 else 0
    decreases k
  {
    hide Before, Order, Tick, Accounted;
    if k == 0 {
      HeadIsFirst(s, d);
    } else {
      TickAccounted(s);
      StillThere(s, k, d);
      TickOrder(s, c, d);
      DueSlices(Tick(s), k - 1, c, d);
    }
  }

  lemma HeadIsFirst(s: Loop, d: nat)
    requires Accounted(s) && Running(s)
    ensures !Before(Order(s), d, Current(s).id)
  {
    OrderOf(s);
  }

  lemma StillThere(s: Loop, k: nat, d: nat)
    requires Accounted(s) && Running(s) && k > 0 && d in Ids(s.nodes) && d in Ids(Ticks(s, k).nodes)
    ensures d in Ids(Tick(s).nodes)
  {
    hide Accounted, Tick;
    Known(s, d);
    TickAccounted(s);
    TickNext(s);
    if d !in Ids(Tick(s).nodes) {
      Known(Tick(s), d);
      GoneForGood(Tick(s), k - 1, d);
      assert false;
    }
  }

  lemma TickNext(s: Loop)
    requires Running(s)
    ensures Tick(s).next >= s.next
  {
  }

  /** Who is known is in the ring or has returned. */
  lemma Known(s: Loop, d: nat)
    requires Accounted(s)
    ensures d < s.next <==> d in Ids(s.nodes) || d in s.done
  {
    assert Count(s, d) == if d < s.next then 1 else 0;
    assert d in Ids(s.nodes) <==> d in multiset(Ids(s.nodes));
    assert d in s.done <==> d in multiset(s.done);
  }

  /**
   Between two consecutive slices of c, every other coroutine that is in the ring all the
   time gets exactly one, whoever else returns or is created meanwhile.
   */
  lemma OneSliceEach(s: Loop, k: nat, c: nat, d: nat)
    requires Accounted(s) && Running(s) && Current(s).id == c && Current(s).context.Yield?
    requires NextSlice(Tick(s), k, c) && c != d
    requires d in Ids(s.nodes) && d in Ids(Ticks(s, k + 1).nodes)
    ensures Slices(Tick(s), k, d) == 1
  {
    TickAccounted(s);
    TickMoves(s);
    OrderOf(s);
    OrderOf(Tick(s));
    var r := Order(Tick(s));
    assert r[|r| - 1] == c;
    var i :| 0 <= i < |r| && r[i] == d;
    DueSlices(Tick(s), k, c, d);
  }
}
