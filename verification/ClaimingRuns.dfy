/** Whole runs of the sorting program: they end, with every file claimed once and sorted. */
module ClaimingRuns {
  import opened Sorting
  import opened TopDownSort
  import opened Claiming
  import KWayMerge
  import R = CoroRing

  function Sum(s: seq<nat>): nat {
    if s == [] then 0 else Sum(s[..|s| - 1]) + s[|s| - 1]
  }

  lemma {:induction false} SumUpdate(s: seq<nat>, i: nat, v: nat)
    requires i < |s|
    ensures Sum(s[i := v]) == Sum(s) - s[i] + v
  {
    var r := s[i := v];
    if i == |s| - 1 {
      assert r[..|s| - 1] == s[..|s| - 1];
    } else {
      assert r[..|s| - 1] == s[..|s| - 1][i := v];
      SumUpdate(s[..|s| - 1], i, v);
    }
  }

  function Unclaimed(files: seq<File>): (r: seq<nat>)
    ensures |r| == |files|
  {
    seq(|files|, f requires 0 <= f < |files| => if files[f].claimed then 0 else 1)
  }

  /** The steps a coroutine has yet to take before it looks for a file again. */
  function Steps(files: seq<File>, job: Job): nat {
    match job.phase
    case Claim => 0
    case Input => if job.cursor < |files| then 2 + |Plan(0, |files[job.cursor].input|)| else 0
    case Sorts(ops) => 1 + |ops|
  }

  function Pending(files: seq<File>, jobs: seq<Job>): (r: seq<nat>)
    ensures |r| == |jobs|
  {
    seq(|jobs|, id requires 0 <= id < |jobs| => Steps(files, jobs[id]))
  }

  /** A claim, a step on a file, and a return bring the end nearer, in this order of weight. */
  lemma ActNearsEnd(w: World)
    requires Inv(w) && CanStep(w)
    ensures var v := Act(w); var x, y := Sum(Unclaimed(w.files)), Sum(Unclaimed(v.files));
            var p, q := Sum(Pending(w.files, w.jobs)), Sum(Pending(v.files, v.jobs));
            y < x || (y == x && q < p) || (y == x && q == p && |v.loop.nodes| < |w.loop.nodes|)
  {
    hide Inv, Plan;
    var v, id := Act(w), R.Current(w.loop).id;
    var job := w.jobs[id];
    if job.phase == Claim {
      var k := Scan(w.files, job.cursor);
      if k < |w.files| {
        assert Unclaimed(v.files) == Unclaimed(w.files)[k := 0];
        SumUpdate(Unclaimed(w.files), k, 0);
      } else {
        assert Pending(v.files, v.jobs) == Pending(w.files, w.jobs);
      }
    } else {
      assert Unclaimed(v.files) == Unclaimed(w.files);
      assert Pending(v.files, v.jobs) == Pending(w.files, w.jobs)[id := Steps(v.files, v.jobs[id])];
      SumUpdate(Pending(w.files, w.jobs), id, Steps(v.files, v.jobs[id]));
    }
  }

  /** loop_start with the coroutines of this program; `late(t)` is what the clock says after step t. */
  ghost function Run(w: World, late: nat -> bool, t: nat): World
    requires Inv(w)
    decreases Sum(Unclaimed(w.files)), Sum(Pending(w.files, w.jobs)), |w.loop.nodes|
  {
    if w.loop.nodes == [] then w
    else
      InvCanStep(w);
      ActNearsEnd(w);
      StepInv(w, late(t));
      Run(Step(w, late(t)), late, t + 1)
  }

  // ---------------------------------------------------------------- the start

  lemma {:induction false} StartLoopOk(n: nat)
    ensures var loop := StartLoop(n);
            && R.Accounted(loop) && loop.next == n == |loop.nodes| && loop.cur == 0 && loop.done == []
            && forall i :: 0 <= i < n ==> loop.nodes[i].id == i
  {
    if n == 0 {
      R.InitAccounted();
    } else {
      StartLoopOk(n - 1);
      R.CreateAccounted(StartLoop(n - 1), R.Return);
    }
  }

  lemma StartInv(inputs: seq<seq<int>>, garbage: seq<int>, n: nat)
    ensures Inv(Start(inputs, garbage, n))
  {
    var w := Start(inputs, garbage, n);
    StartLoopOk(n);
    forall id | 0 <= id < n ensures InLoop(w, id) {
      assert R.Ids(w.loop.nodes)[id] == id;
    }
  }

  // ---------------------------------------------------------------- the end

  predicate SameInputs(w: World, inputs: seq<seq<int>>) {
    |w.files| == |inputs| && forall f :: 0 <= f < |inputs| ==> w.files[f].input == inputs[f]
  }

  lemma {:induction false} RunEnds(w: World, late: nat -> bool, t: nat, inputs: seq<seq<int>>)
    requires Inv(w) && SameInputs(w, inputs)
    ensures var v := Run(w, late, t);
            v.loop.nodes == [] && Inv(v) && SameInputs(v, inputs) && |v.jobs| == |w.jobs|
    decreases Sum(Unclaimed(w.files)), Sum(Pending(w.files, w.jobs)), |w.loop.nodes|
  {
    hide Inv;
    if w.loop.nodes != [] {
      InvCanStep(w);
      ActNearsEnd(w);
      StepInv(w, late(t));
      RunEnds(Step(w, late(t)), late, t + 1, inputs);
    }
  }

  ghost predicate TakenOnce(taken: seq<Taken>, f: nat) {
    exists i :: 0 <= i < |taken| && taken[i].file == f && forall j :: 0 <= j < |taken| && taken[j].file == f ==> j == i
  }

  /** When no coroutine is left, but there was one, every file is claimed and sorted. */
  lemma EndSorted(w: World)
    requires Inv(w) && w.loop.nodes == [] && |w.jobs| >= 1
    ensures forall f :: 0 <= f < |w.files| ==> TakenOnce(w.taken, f) && w.files[f].result == Sort(w.files[f].input)
  {
    assert !InLoop(w, 0);
    forall f | 0 <= f < |w.files| ensures TakenOnce(w.taken, f) && w.files[f].result == Sort(w.files[f].input) {
      assert f < w.jobs[0].cursor && w.files[f].claimed;
      var i :| 0 <= i < |w.taken| && w.taken[i].file == f;
      var t := w.taken[i];
      assert t in w.taken && FileOk(w.files[f], w.jobs[t.coro], f) && !InLoop(w, t.coro);
    }
  }

  /**
   For any files, any number of coroutines but zero and any clock: loop_start ends, each
   coroutine has returned once, each file was claimed by exactly one of them, once, and
   each array is the sorted permutation of its file.
   */
  lemma EveryFileSorted(inputs: seq<seq<int>>, garbage: seq<int>, n: nat, late: nat -> bool)
    requires n >= 1
    ensures Inv(Start(inputs, garbage, n))
    ensures var w := Run(Start(inputs, garbage, n), late, 0);
            && w.loop.nodes == [] && |w.files| == |inputs|
            && (forall id: nat :: multiset(w.loop.done)[id] == if id < n then 1 else 0)
            && (forall f :: 0 <= f < |inputs| ==> w.files[f].result == Sort(inputs[f]))
            && (forall f :: 0 <= f < |inputs| ==> TakenOnce(w.taken, f))
            && (forall i :: 0 <= i < |w.taken| ==> w.taken[i].coro < n && w.taken[i].file < |inputs|)
  {
    var s := Start(inputs, garbage, n);
    StartInv(inputs, garbage, n);
    RunEnds(s, late, 0, inputs);
    var w := Run(s, late, 0);
    EndSorted(w);
    forall id: nat ensures multiset(w.loop.done)[id] == if id < n then 1 else 0 {
      assert R.Count(w.loop, id) == if id < n then 1 else 0;
      assert R.Ids(w.loop.nodes) == [];
    }
  }

  // ---------------------------------------------------------------- the merge at the end

  lemma {:induction false} UnionSameElements(cs: seq<seq<int>>, ds: seq<seq<int>>)
    requires |cs| == |ds| && forall f :: 0 <= f < |cs| ==> ds[f] == Sort(cs[f])
    ensures multiset(KWayMerge.Union(cs)) == multiset(KWayMerge.Union(ds))
  {
    if cs != [] {
      var n := |cs| - 1;
      UnionSameElements(cs[..n], ds[..n]);
      SortSorts(cs[n]);
    }
  }

  /** What the merge makes of the sorted arrays is the sorted permutation of all the files together. */
  lemma SortedFilesMerge(inputs: seq<seq<int>>, arrays: seq<seq<int>>)
    requires |inputs| == |arrays| && forall f :: 0 <= f < |inputs| ==> arrays[f] == Sort(inputs[f])
    ensures KWayMerge.AllSorted(arrays) && Sort(KWayMerge.Union(arrays)) == Sort(KWayMerge.Union(inputs))
  {
    forall f | 0 <= f < |arrays| ensures Sorted(arrays[f]) {
      SortSorts(inputs[f]);
    }
    UnionSameElements(inputs, arrays);
    SortSorts(KWayMerge.Union(arrays));
    SortedIsSort(KWayMerge.Union(inputs), Sort(KWayMerge.Union(arrays)));
  }
}
