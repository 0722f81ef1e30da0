/**
 The sorting program over the event loop: coroutines claim files, read and sort them,
 and yield whenever a clock says so. A step is what a coroutine does up to the next
 place where it may yield; a stream of booleans says whether the quantum has run out
 there. The nodes of the loop carry no contexts here: what a coroutine has yet to do
 is its entry in `jobs`.
 */
module Claiming {
  import opened Sorting
  import opened TopDownSort
  import R = CoroRing

  /** Within the loop of `coroutine`, at the file of its cursor. */
  datatype Phase = Claim | Input | Sorts(ops: seq<Op>)

  datatype Job = Job(cursor: nat, phase: Phase)

  /** `input` is what the file holds, `result` the array. */
  datatype File = File(claimed: bool, input: seq<int>, result: seq<int>)

  datatype Taken = Taken(coro: nat, file: nat)

  /** `taken` logs the claims. */
  datatype World = World(files: seq<File>, jobs: seq<Job>, loop: R.Loop, taken: seq<Taken>)

  // ---------------------------------------------------------------- the program

  /** The first file from i on with status 0. */
  function Scan(files: seq<File>, i: nat): (k: nat)
    requires i <= |files|
    ensures i <= k <= |files| && (k < |files| ==> !files[k].claimed) && forall f :: i <= f < k ==> files[f].claimed
    decreases |files| - i
  {
    if i == |files| || !files[i].claimed then i else Scan(files, i + 1)
  }

  predicate CanStep(w: World) {
    && R.Running(w.loop) && R.Current(w.loop).id < |w.jobs|
    && var job := w.jobs[R.Current(w.loop).id];
    && job.cursor <= |w.files| && (job.phase != Claim ==> job.cursor < |w.files|)
    && (job.phase.Sorts? ==> InRange(|w.files[job.cursor].result|, job.phase.ops))
  }

  function SetJob(w: World, id: nat, job: Job): World
    requires id < |w.jobs|
  {
    w.(jobs := w.jobs[id := job])
  }

  function SetFile(w: World, f: nat, file: File): World
    requires f < |w.files|
  {
    w.(files := w.files[f := file])
  }

  function StepClaim(w: World): World
    requires CanStep(w) && w.jobs[R.Current(w.loop).id].phase == Claim
  {
    var id := R.Current(w.loop).id;
    var k := Scan(w.files, w.jobs[id].cursor);
    if k == |w.files| then SetJob(w, id, Job(k, Claim)).(loop := R.Retire(w.loop))
    else SetFile(SetJob(w, id, Job(k, Input)), k, w.files[k].(claimed := true)).(taken := w.taken + [Taken(id, k)])
  }

  function StepFile(w: World): World
    requires CanStep(w) && w.jobs[R.Current(w.loop).id].phase != Claim
  {
    var id := R.Current(w.loop).id;
    var f := w.jobs[id].cursor;
    var file := w.files[f];
    match w.jobs[id].phase
    case Input => SetFile(SetJob(w, id, Job(f, Sorts(Plan(0, |file.input|)))), f, file.(result := file.input))
    case Sorts(ops) =>
      if |ops| == 0 then SetJob(w, id, Job(f, Claim))
      else
        SetFile(SetJob(w, id, Job(f, Sorts(ops[1..]))), f, file.(result := Merged(file.result, ops[0].from, ops[0].mid, ops[0].to)))
  }

  /** Whether there is a place to yield after the step: not at the end of a sort, nor after a merge of two single values. */
  predicate YieldsAfter(w: World)
    requires CanStep(w)
  {
    var job := w.jobs[R.Current(w.loop).id];
    match job.phase
    case Claim => Scan(w.files, job.cursor) < |w.files|
    case Input => true
    case Sorts(ops) => |ops| > 0 && ops[0].to - ops[0].from > 2
  }

  /** What the running coroutine does, short of yielding. */
  function Act(w: World): World
    requires CanStep(w)
  {
    if w.jobs[R.Current(w.loop).id].phase == Claim then StepClaim(w) else StepFile(w)
  }

  /** Then coro_yield_with_metrics, which yields if it is late. */
  function Step(w: World, late: bool): World
    requires CanStep(w)
  {
    var after := Act(w);
    if YieldsAfter(w) && late then after.(loop := R.CoroYield(after.loop)) else after
  }

  // ---------------------------------------------------------------- the start

  function StartLoop(n: nat): R.Loop {
    if n == 0 then R.Init() else R.CoroCreate(StartLoop(n - 1), R.Return)
  }

  function Start(inputs: seq<seq<int>>, garbage: seq<int>, n: nat): World {
    World(seq(|inputs|, f requires 0 <= f < |inputs| => File(false, inputs[f], garbage)),
          seq(n, _ => Job(0, Claim)), StartLoop(n), [])
  }

  // ---------------------------------------------------------------- the invariant

  predicate InLoop(w: World, id: nat) { id in R.Ids(w.loop.nodes) }

  ghost predicate LoopOk(w: World) {
    && R.Accounted(w.loop) && w.loop.next == |w.jobs| && (R.Running(w.loop) || w.loop.nodes == [])
    && forall i :: 0 <= i < |w.loop.nodes| ==> w.loop.nodes[i].id < |w.jobs|
  }

  /** Every file below a cursor has been claimed, and all when a coroutine has returned. */
  ghost predicate CursorsOk(w: World) {
    && (forall id :: 0 <= id < |w.jobs| ==> w.jobs[id].cursor <= |w.files| && (w.jobs[id].phase != Claim ==> w.jobs[id].cursor < |w.files|))
    && (forall id, f :: 0 <= id < |w.jobs| && 0 <= f < w.jobs[id].cursor && f < |w.files| ==> w.files[f].claimed)
    && (forall id :: 0 <= id < |w.jobs| && !InLoop(w, id) ==> w.jobs[id] == Job(|w.files|, Claim))
  }

  /** The log has one entry for each claimed file. */
  ghost predicate TakenOk(w: World) {
    && (forall i, j :: 0 <= i < j < |w.taken| ==> w.taken[i].file != w.taken[j].file)
    && (forall i :: 0 <= i < |w.taken| ==> w.taken[i].file < |w.files| && w.files[w.taken[i].file].claimed && w.taken[i].coro < |w.jobs|)
    && (forall f :: 0 <= f < |w.files| && w.files[f].claimed ==> exists i :: 0 <= i < |w.taken| && w.taken[i].file == f)
  }

  predicate WorksOn(job: Job, f: nat) { job.phase != Claim && job.cursor == f }

  /** The coroutine at work on a file is the one in the log, and what it has left to do will sort the file. */
  ghost predicate WorkOk(w: World) {
    && (forall id :: 0 <= id < |w.jobs| && w.jobs[id].phase != Claim ==> Taken(id, w.jobs[id].cursor) in w.taken)
    && (forall t :: t in w.taken && t.file < |w.files| && t.coro < |w.jobs| ==> FileOk(w.files[t.file], w.jobs[t.coro], t.file))
  }

  ghost predicate FileOk(file: File, job: Job, f: nat) {
    if WorksOn(job, f) then
      job.phase.Sorts? ==> InRange(|file.result|, job.phase.ops) && Apply(file.result, job.phase.ops) == Sort(file.input)
    else file.result == Sort(file.input)
  }

  ghost predicate Inv(w: World) { LoopOk(w) && CursorsOk(w) && TakenOk(w) && WorkOk(w) }

  // ---------------------------------------------------------------- it is kept

  /** While a coroutine is in the loop, one can take a step. */
  lemma InvCanStep(w: World)
    requires Inv(w) && w.loop.nodes != []
    ensures CanStep(w)
  {
    var id := R.Current(w.loop).id;
    var job := w.jobs[id];
    if job.phase.Sorts? {
      assert Taken(id, job.cursor) in w.taken;
      assert FileOk(w.files[job.cursor], job, job.cursor);
    }
  }

  lemma ActLoop(w: World)
    requires Inv(w) && CanStep(w)
    ensures LoopOk(Act(w))
    ensures var id := R.Current(w.loop).id;
            forall x :: InLoop(Act(w), x) <==> InLoop(w, x) && (x != id || Act(w).loop == w.loop)
  {
    hide CursorsOk, TakenOk, WorkOk, Scan, Merged, Plan;
    var id := R.Current(w.loop).id;
    assert R.Ids(w.loop.nodes)[w.loop.cur] == id;
    if Act(w).loop != w.loop {
      var r := R.Retire(w.loop);
      R.RetireAccounted(w.loop);
      var ids := R.Ids(w.loop.nodes);
      assert R.Ids(r.nodes) == ids[..w.loop.cur] + ids[w.loop.cur + 1..];
      assert ids == ids[..w.loop.cur] + [id] + ids[w.loop.cur + 1..];
      assert R.Count(r, id) == 1 && multiset(r.done)[id] >= 1;
      assert id !in multiset(R.Ids(r.nodes));
    }
  }

  lemma ActCursors(w: World)
    requires Inv(w) && CanStep(w)
    ensures CursorsOk(Act(w))
  {
    hide R.Accounted, TakenOk, WorkOk;
    ActLoop(w);
  }

  lemma ActTaken(w: World)
    requires Inv(w) && CanStep(w)
    ensures TakenOk(Act(w))
  {
    hide R.Accounted, WorkOk;
    var v := Act(w);
    forall f | 0 <= f < |v.files| && v.files[f].claimed ensures exists i :: 0 <= i < |v.taken| && v.taken[i].file == f {
      if w.files[f].claimed {
        var i :| 0 <= i < |w.taken| && w.taken[i].file == f;
        assert v.taken[i].file == f;
      } else {
        assert v.taken[|w.taken|].file == f;
      }
    }
  }

  /** Two entries of the log for the same file are the same. */
  lemma OneTaker(w: World, s: Taken, t: Taken)
    requires TakenOk(w) && s in w.taken && t in w.taken && s.file == t.file
    ensures s == t
  {
    var i :| 0 <= i < |w.taken| && w.taken[i] == s;
    var j :| 0 <= j < |w.taken| && w.taken[j] == t;
  }

  /** The step on the file of the running coroutine keeps its promise. */
  lemma ActFile(w: World)
    requires Inv(w) && CanStep(w)
    ensures var id := R.Current(w.loop).id; var f := w.jobs[id].cursor;
            w.jobs[id].phase != Claim ==> FileOk(Act(w).files[f], Act(w).jobs[id], f)
  {
    var id := R.Current(w.loop).id;
    var job := w.jobs[id];
    if job.phase != Claim {
      assert Taken(id, job.cursor) in w.taken;
      var file := w.files[job.cursor];
      assert FileOk(file, job, job.cursor);
      if job.phase.Input? {
        PlanSorts(file.input, 0, |file.input|);
        assert file.input[..|file.input|] == file.input;
      }
    }
  }

  lemma ActWork(w: World)
    requires Inv(w) && CanStep(w)
    ensures WorkOk(Act(w))
  {
    hide R.Accounted, FileOk, TakenOk, CursorsOk;
    var v, id := Act(w), R.Current(w.loop).id;
    var job := w.jobs[id];
    ActFile(w);
    forall t | t in v.taken && t.file < |v.files| && t.coro < |v.jobs| ensures FileOk(v.files[t.file], v.jobs[t.coro], t.file) {
      if t in w.taken {
        ActWorkOld(w, t);
      } else {
        FreshClaim(v.files[t.file], v.jobs[t.coro], t.file);
      }
    }
  }

  lemma FreshClaim(file: File, job: Job, f: nat)
    requires job == Job(f, Input)
    ensures FileOk(file, job, f)
  {
  }

  lemma ActWorkOld(w: World, t: Taken)
    requires Inv(w) && CanStep(w) && t in w.taken
    ensures t.file < |w.files| && t.coro < |w.jobs| && FileOk(Act(w).files[t.file], Act(w).jobs[t.coro], t.file)
  {
    hide R.Accounted, Apply, InRange, Sort;
    var v, id := Act(w), R.Current(w.loop).id;
    var job := w.jobs[id];
    assert FileOk(w.files[t.file], w.jobs[t.coro], t.file);
    if job.phase != Claim {
      assert Taken(id, job.cursor) in w.taken;
      if t.file == job.cursor {
        OneTaker(w, t, Taken(id, job.cursor));
        ActFile(w);
      }
    }
  }

  lemma YieldInv(w: World)
    requires Inv(w) && R.Running(w.loop)
    ensures Inv(w.(loop := R.CoroYield(w.loop)))
  {
    hide TakenOk;
    var v := w.(loop := R.CoroYield(w.loop));
    forall id: nat ensures R.Count(v.loop, id) == if id < v.loop.next then 1 else 0 {
      assert R.Count(w.loop, id) == if id < w.loop.next then 1 else 0;
    }
    TakenSame(w, v);
  }

  lemma TakenSame(w: World, v: World)
    requires TakenOk(w) && v.files == w.files && v.jobs == w.jobs && v.taken == w.taken
    ensures TakenOk(v)
  {
  }

  lemma StepInv(w: World, late: bool)
    requires Inv(w) && CanStep(w)
    ensures Inv(Step(w, late))
  {
    ActLoop(w);
    ActCursors(w);
    ActTaken(w);
    ActWork(w);
    if YieldsAfter(w) && late {
      YieldInv(Act(w));
    }
  }
}
