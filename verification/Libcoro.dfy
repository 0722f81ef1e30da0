/**
 The event loop over linked nodes. A node's context is what its coroutine has yet to
 do, and swapcontext a change of the node that runs.
 */
module Libcoro {
  import R = CoroRing

  class Node {
    var next: Node
    var prev: Node
    var context: R.Script
    const id: nat                // which coroutine: the argument of its function

    constructor (context: R.Script, id: nat)
      ensures this.next == this && this.prev == this && this.context == context && this.id == id
    {
      this.next, this.prev, this.context, this.id := this, this, context, id;
    }
  }

  ghost predicate Linked(ring: seq<Node>, i: nat)
    requires i + 1 < |ring|
    reads {ring[i]}`next, {ring[i + 1]}`prev
  {
    ring[i].next == ring[i + 1] && ring[i + 1].prev == ring[i]
  }

  ghost function Nodes(ring: seq<Node>): set<Node> { set n | n in ring }

  /** The sentinel, the coroutines in list order, and the sentinel again. */
  ghost predicate IsRing(ring: seq<Node>)
    reads Nodes(ring)`next, Nodes(ring)`prev
  {
    && |ring| >= 2 && ring[0] == ring[|ring| - 1]
    && (forall i, j :: 0 <= i < j < |ring| - 1 ==> ring[i] != ring[j])
    && (forall i {:trigger Linked(ring, i)} :: 0 <= i < |ring| - 1 ==> Linked(ring, i))
  }

  ghost function CorosOf(ring: seq<Node>): (nodes: seq<R.Coro>)
    requires |ring| >= 2
    reads Nodes(ring)`context
    ensures |nodes| == |ring| - 2 && forall i :: 0 <= i < |nodes| ==> nodes[i] == R.Coro(ring[i + 1].id, ring[i + 1].context)
  {
    if |ring| == 2 then [] else [R.Coro(ring[1].id, ring[1].context)] + CorosOf(ring[1..])
  }

  lemma RingEnds(ring: seq<Node>)
    requires IsRing(ring)
    ensures |ring| >= 2 && ring[0] == ring[|ring| - 1]
  {
  }

  lemma SnocCoros(ring: seq<Node>, node: Node)
    requires |ring| >= 2
    ensures var after := ring[..|ring| - 1] + [node, ring[|ring| - 1]];
            && CorosOf(after) == CorosOf(ring) + [R.Coro(node.id, node.context)]
            && Nodes(after) == Nodes(ring) + {node}
  {
    var last := ring[|ring| - 1];
    var after := ring[..|ring| - 1] + [node, last];
    assert after[|ring|] == last && after[|ring| - 1] == node;
    forall n | n in ring ensures n in after {
      var i :| 0 <= i < |ring| && ring[i] == n;
      assert n == last || after[i] == n;
    }
  }

  lemma RemoveCoros(ring: seq<Node>, cur: nat)
    requires cur + 2 < |ring|
    ensures var after := ring[..cur + 1] + ring[cur + 2..];
            && CorosOf(after) == CorosOf(ring)[..cur] + CorosOf(ring)[cur + 1..]
            && Nodes(after) <= Nodes(ring)
  {
  }

  /** Pointer work of coro_create. */
  method InsertLast(ghost ring: seq<Node>, sentinel: Node, node: Node)
    requires IsRing(ring) && ring[0] == sentinel && node !in ring
    modifies Nodes(ring)`next, Nodes(ring)`prev, node`next, node`prev
    ensures IsRing(ring[..|ring| - 1] + [node, sentinel])
  {
    node.next := sentinel;
    node.prev := sentinel.prev;
    assert Linked(ring, |ring| - 2);
    sentinel.prev.next := node;
    sentinel.prev := node;
    ghost var after := ring[..|ring| - 1] + [node, sentinel];
    forall i | 0 <= i < |after| - 1 ensures Linked(after, i) {
      if i < |ring| - 2 {
        assert old(Linked(ring, i));
      }
    }
  }

  /** Pointer work of loop_start: takes out ring[i]. */
  method Unlink(ghost ring: seq<Node>, ghost i: nat, node: Node)
    requires IsRing(ring) && 1 <= i < |ring| - 1 && ring[i] == node
    modifies Nodes(ring)`next, Nodes(ring)`prev
    ensures IsRing(ring[..i] + ring[i + 1..])
  {
    assert Linked(ring, i - 1) && Linked(ring, i);
    node.prev.next := node.next;
    node.next.prev := node.prev;
    ghost var after := ring[..i] + ring[i + 1..];
    forall k | 0 <= k < |after| - 1 ensures Linked(after, k) {
      assert old(Linked(ring, k)) && old(Linked(ring, k + 1));
    }
  }

  class EventLoop {
    var sentinel: Node
    var current: Node            // meaningful from loop_start on, while there are coroutines
    ghost var ring: seq<Node>
    var created: nat
    ghost var returned: seq<nat>

    ghost predicate Valid()
      reads this`sentinel, this`ring, Nodes(ring)`next, Nodes(ring)`prev
    {
      IsRing(ring) && ring[0] == sentinel
    }

    /** `current` is the coroutine at this index. */
    ghost predicate At(cur: nat)
      reads this`ring, this`current
    {
      cur + 2 < |ring| && ring[cur + 1] == current
    }

    /** The loop as a value, with the coroutine at index cur running. */
    ghost function Model(cur: nat): R.Loop
      requires |ring| >= 2
      reads this`ring, this`created, this`returned, Nodes(ring)`context
    {
      R.Loop(CorosOf(ring), cur, created, returned)
    }

    /** loop_init */
    constructor ()
      ensures Valid() && fresh(Nodes(ring)) && Model(0) == R.Init()
    {
      var node := new Node(R.Return, 0);
      sentinel, current := node, node;
      ring := [node, node];
      created, returned := 0, [];
    }

    /** coro_create: before the sentinel, at the end of the list. */
    method CoroCreate(context: R.Script)
      requires Valid()
      modifies `ring, `created, Nodes(ring)`next, Nodes(ring)`prev
      ensures Valid() && fresh(Nodes(ring) - old(Nodes(ring)))
      ensures forall cur: nat :: old(At(cur)) ==> At(cur)
      ensures forall cur: nat :: Model(cur) == R.CoroCreate(old(Model(cur)), context)
    {
      hide IsRing, CorosOf;
      RingEnds(ring);
      var node := new Node(context, created);
      ghost var was := ring;
      InsertLast(ring, sentinel, node);
      SnocCoros(was, node);
      ring := ring[..|ring| - 1] + [node, sentinel];
      created := created + 1;
    }

    /** Makes the next node the current one, the sentinel skipped. */
    method Advance(ghost cur: nat) returns (ghost after: nat)
      requires Valid() && At(cur)
      modifies this`current
      ensures Valid() && At(after) && after == R.After(Model(cur))
    {
      assert Linked(ring, 0) && Linked(ring, cur + 1);
      current := current.next;
      after := cur + 1;
      if current == sentinel {
        current := current.next;
        after := 0;
      }
    }

    /** coro_yield; what it returns is the new index of the current node. */
    method CoroYield(ghost cur: nat) returns (ghost cur': nat)
      requires Valid() && At(cur)
      modifies this`current
      ensures Valid() && At(cur')
      ensures Model(cur') == R.CoroYield(Model(cur))
    {
      assert Linked(ring, 0) && Linked(ring, 1);
      if sentinel == sentinel.next.next {
        return cur;
      }
      cur' := Advance(cur);
    }

    /** What the running coroutine does next, unless that is to return. */
    method Tick(ghost cur: nat) returns (ghost cur': nat)
      requires Valid() && At(cur) && !current.context.Return?
      modifies this, Nodes(ring)
      ensures Valid() && At(cur') && fresh(Nodes(ring) - old(Nodes(ring)))
      ensures Model(cur') == R.Tick(old(Model(cur)))
    {
      ghost var s := Model(cur);
      cur' := cur;
      match current.context
      case Yield(rest) =>
        current.context := rest;
        assert Model(cur) == R.SaveContext(s, rest);
        cur' := CoroYield(cur);
      case Create(child, rest) =>
        current.context := rest;
        assert Model(cur) == R.SaveContext(s, rest);
        CoroCreate(child);
    }

    /** swapcontext from loop_start: comes back when a coroutine has run to its end. */
    method RunUntilReturn(ghost cur: nat) returns (ghost cur': nat)
      requires Valid() && At(cur)
      modifies this, Nodes(ring)
      ensures Valid() && At(cur') && current.context.Return? && fresh(Nodes(ring) - old(Nodes(ring)))
      ensures R.Drive(Model(cur')) == R.Drive(old(Model(cur)))
      ensures R.Work(Model(cur').nodes) <= old(R.Work(Model(cur).nodes))
    {
      hide R.Tick, R.Work, IsRing;
      cur' := cur;
      while !current.context.Return?
        invariant Valid() && At(cur') && fresh(Nodes(ring) - old(Nodes(ring)))
        invariant R.Drive(Model(cur')) == R.Drive(old(Model(cur)))
        invariant R.Work(CorosOf(ring)) <= old(R.Work(CorosOf(ring)))
        decreases R.Work(CorosOf(ring))
      {
        R.TickWorks(Model(cur'));
        R.DriveTick(Model(cur'));
        cur' := Tick(cur');
      }
    }

    /** The rest of a round of loop_start: unlinks the node of the coroutine that has returned. */
    method Retire(ghost cur: nat) returns (ghost cur': nat)
      requires Valid() && At(cur)
      modifies this, Nodes(ring)
      ensures Valid() && (At(cur') || |ring| == 2) && Nodes(ring) <= old(Nodes(ring))
      ensures Model(cur') == R.Retire(old(Model(cur)))
    {
      hide IsRing, CorosOf, Nodes;
      RingEnds(ring);
      RemoveCoros(ring, cur);
      var oldNode := current;
      ghost var after := Advance(cur);
      cur' := if after == 0 then 0 else cur;
      Unlink(ring, cur + 1, oldNode);
      returned := returned + [oldNode.id];
      ring := ring[..cur + 1] + ring[cur + 2..];
    }

    /** loop_start */
    method LoopStart()
      requires Valid()
      modifies this, Nodes(ring)
      ensures Valid() && |ring| == 2
      ensures Model(0) == R.Drive(old(Model(0))).(cur := 0)
    {
      hide IsRing, CorosOf, R.Work, R.Drive, R.Retire;
      Begin();
      ghost var cur := 0;
      ghost var start := Model(0);
      while sentinel.next != sentinel
        invariant Valid() && |ring| >= 2 && (sentinel.next == sentinel <==> |ring| == 2)
        invariant At(cur) || |ring| == 2
        invariant fresh(Nodes(ring) - old(Nodes(ring)))
        invariant R.Drive(Model(cur)) == R.Drive(start)
        decreases R.Work(Model(cur).nodes)
      {
        cur := RunUntilReturn(cur);
        R.DriveTick(Model(cur));
        R.TickWorks(Model(cur));
        cur := Retire(cur);
        First();
      }
      R.DriveNothing(Model(cur));
    }

    /** The first coroutine of the list becomes the current one. */
    method Begin()
      requires Valid()
      modifies this`current
      ensures Valid() && |ring| >= 2 && (At(0) || |ring| == 2) && (sentinel.next == sentinel <==> |ring| == 2)
    {
      First();
      current := sentinel.next;
    }

    /** What sentinel.next is. */
    lemma First()
      requires Valid()
      ensures |ring| >= 2 && sentinel.next == ring[1] && (ring[1] == sentinel <==> |ring| == 2)
    {
      assert Linked(ring, 0);
    }
  }
}
