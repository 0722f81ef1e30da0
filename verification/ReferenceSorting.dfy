/**
 The reference program: coroutines take names from the pool, read, sort and write the
 files, and yield after each choice and, when a clock says so, after a merge. What a
 coroutine has yet to do is its entry in `jobs`, so that the contexts of the scheduler
 are empty here. Sorting an empty file reads outside its array, and a name without a
 file fails an assertion: both end the program.
 */
module ReferenceSorting {
  import opened Sorting
  import opened FilePool
  import S = SchedulerModel
  import ClaimingRuns
  import KWayMerge

  /** Within the loop of coroutine_func_f: about to poll, chosen, or with the merges left to make. */
  datatype Job = Choose | Input(name: string) | Sorts(name: string, values: seq<int>, ops: seq<Op>)

  type Disk = map<string, seq<int>>

  /** `input` is the disk at the start, `taken` logs the polls. */
  datatype World = World(pool: seq<string>, disk: Disk, input: Disk, jobs: seq<Job>, sched: S.State, taken: seq<Dealt>, crashed: bool)

  // ---------------------------------------------------------------- the program

  predicate CanAct(w: World) {
    && S.CanRun(w.sched) && S.This(w.sched).id < |w.jobs| && !w.crashed
    && var job := w.jobs[S.This(w.sched).id];
    job.Sorts? ==> InRange(|job.values|, job.ops)
  }

  function SetJob(w: World, id: nat, job: Job): World
    requires id < |w.jobs|
  {
    w.(jobs := w.jobs[id := job])
  }

  /** poll_next_file, and coro_handle_file_selection, which yields; or the end of the function. */
  function ActChoose(w: World): World
    requires CanAct(w)
  {
    var id := S.This(w.sched).id;
    match Poll(w.pool)
    case (Null, _) => w.(sched := S.CoroEnd(w.sched, 0))
    case (Name(name), rest) =>
      SetJob(w, id, Input(name)).(pool := rest, taken := w.taken + [Dealt(id, name)], sched := S.CoroYield(w.sched))
  }

  /** What the coroutine in control does up to the next place where it may yield. */
  function Act(w: World, late: bool): World
    requires CanAct(w)
  {
    var id := S.This(w.sched).id;
    match w.jobs[id]
    case Choose => ActChoose(w)
    case Input(name) =>
      if name !in w.disk || w.disk[name] == [] then w.(crashed := true)
      else SetJob(w, id, Sorts(name, w.disk[name], SortPlan(|w.disk[name]|, 1)))
    case Sorts(name, values, ops) =>
      if |ops| == 0 then SetJob(w, id, Choose).(disk := w.disk[name := values])
      else SetJob(w, id, Sorts(name, Merged(values, ops[0].from, ops[0].mid, ops[0].to), ops[1..])).
             (sched := if late then S.CoroYield(w.sched) else w.sched)
  }

  /** A round of the loop of coro_sched_wait: hands out a coroutine that has ended, or gives control to the first. */
  function Schedule(s: S.State): S.State
    requires s.list != []
  {
    var u := s.(waiting := false);
    var k := S.FirstFinished(s.list);
    if k < |s.list| then S.Remove(u, k) else u.(waiting := true, control := S.Runs(0))
  }

  /** These rounds make up coro_sched_wait. */
  lemma ScheduleIsWait(s: S.State)
    requires s.control == S.Scheduler && !s.crashed && s.list != []
    ensures var u, k := s.(waiting := false), S.FirstFinished(s.list);
            if k < |s.list| then S.SchedWait(u) == (Schedule(s), S.Some(s.list[k]))
            else
              && S.CanRun(Schedule(s))
              && var v := S.Resume(Schedule(s)).(waiting := false);
                 if v.crashed then S.SchedWait(u) == (v, S.None)
                 else v.control == S.Scheduler && S.SchedWait(u) == S.SchedWait(v)
  {
    hide S.SchedWait, S.Resume;
    S.WaitUnfolds(s.(waiting := false));
  }

  function Step(w: World, late: bool): World
    requires if w.sched.control == S.Scheduler then w.sched.list != [] else CanAct(w)
  {
    if w.sched.control == S.Scheduler then w.(sched := Schedule(w.sched)) else Act(w, late)
  }

  /** The main program has been handed NULL, or the program has crashed. */
  predicate Over(w: World) { w.crashed || (w.sched.control == S.Scheduler && w.sched.list == []) }

  // ---------------------------------------------------------------- the invariant

  predicate Active(list: seq<S.Coro>, id: nat) { exists i :: 0 <= i < |list| && list[i].id == id && !list[i].finished }

  ghost predicate Accounted(s: S.State) { forall id: nat :: S.Count(s, id) == if id < s.next then 1 else 0 }

  /** A coroutine that has ended found the pool empty. */
  ghost predicate SchedOk(w: World) {
    var s := w.sched;
    && Accounted(s) && s.next == |w.jobs| && !s.crashed
    && (s.control.Runs? ==> s.control.at < |s.list| && s.waiting && S.NoneFinished(s))
    && (forall i :: 0 <= i < |s.list| ==> s.list[i].id < |w.jobs|)
    && (forall id :: 0 <= id < |w.jobs| && !Active(s.list, id) ==> w.jobs[id] == Choose && w.pool == [])
  }

  /** The sort of the file does not crash. */
  predicate Fine(input: Disk, name: string) { name in input && input[name] != [] }

  ghost predicate DiskOk(w: World) {
    && w.disk.Keys == w.input.Keys
    && forall name :: name in w.disk ==> |w.disk[name]| == |w.input[name]| && Sort(w.disk[name]) == Sort(w.input[name])
  }

  ghost predicate JobOk(job: Job, input: Disk, names: seq<string>) {
    match job
    case Choose => true
    case Input(name) => name in names
    case Sorts(name, values, ops) =>
      && name in names && Fine(input, name) && |values| == |input[name]|
      && InRange(|values|, ops) && Apply(values, ops) == Sort(input[name])
  }

  /** A name that was taken: its coroutine has yet to read it, or is at work on it, or has written it. */
  ghost predicate TakenOk(job: Job, disk: Disk, input: Disk, name: string) {
    || job == Input(name)
    || (Fine(input, name) && name in disk && ((job.Sorts? && job.name == name) || disk[name] == Sort(input[name])))
  }

  ghost predicate FilesOk(w: World, names: seq<string>) {
    && DiskOk(w)
    && (forall id :: 0 <= id < |w.jobs| ==> JobOk(w.jobs[id], w.input, names))
    && (forall d :: d in w.taken ==> d.coro < |w.jobs| && TakenOk(w.jobs[d.coro], w.disk, w.input, d.fileName))
    && (forall name :: name in w.input && name !in names ==> name in w.disk && w.disk[name] == w.input[name])
    && multiset(Names(w.taken)) + multiset(w.pool) == multiset(names)
  }

  ghost predicate Inv(w: World, names: seq<string>) { SchedOk(w) && FilesOk(w, names) && !w.crashed }

  // ---------------------------------------------------------------- it is kept

  lemma InvCanAct(w: World, names: seq<string>)
    requires Inv(w, names) && w.sched.control != S.Scheduler
    ensures CanAct(w)
  {
    assert JobOk(w.jobs[S.This(w.sched).id], w.input, names);
  }

  lemma {:induction false} NamesAppend(taken: seq<Dealt>, d: Dealt)
    ensures Names(taken + [d]) == Names(taken) + [d.fileName]
  {
    if taken == [] {
      assert [d][1..] == [];
    } else {
      assert (taken + [d])[1..] == taken[1..] + [d];
      NamesAppend(taken[1..], d);
    }
  }

  lemma SetActive(list: seq<S.Coro>, i: nat, c: S.Coro, id: nat)
    requires i < |list| && Active(list, id) && c.id == list[i].id && (id != c.id || !c.finished)
    ensures Active(list[i := c], id)
  {
    var k :| 0 <= k < |list| && list[k].id == id && !list[k].finished;
    assert list[i := c][k].id == id;
  }

  /** After a yield. */
  lemma YieldSched(w: World)
    requires SchedOk(w) && S.CanRun(w.sched)
    ensures SchedOk(w.(sched := S.CoroYield(w.sched)))
  {
    var s, t := w.sched, S.CoroYield(w.sched);
    var c := S.This(s).(switches := S.This(s).switches + 1);
    forall id: nat ensures S.Count(t, id) == if id < t.next then 1 else 0 {
      S.SetCount(s, c, id);
      assert S.Count(s, id) == if id < s.next then 1 else 0;
    }
    forall id | 0 <= id < |w.jobs| && !Active(t.list, id) ensures w.jobs[id] == Choose && w.pool == [] {
      if Active(s.list, id) { SetActive(s.list, s.control.at, c, id); }
    }
  }

  /** After the end of a function. */
  lemma EndSched(w: World)
    requires SchedOk(w) && CanAct(w) && w.jobs[S.This(w.sched).id] == Choose && w.pool == []
    ensures SchedOk(w.(sched := S.CoroEnd(w.sched, 0)))
  {
    var s, t := w.sched, S.CoroEnd(w.sched, 0);
    var c := S.This(s).(ret := 0, finished := true);
    forall id: nat ensures S.Count(t, id) == if id < t.next then 1 else 0 {
      S.SetCount(s, c, id);
      assert S.Count(s, id) == if id < s.next then 1 else 0;
    }
    forall id | 0 <= id < |w.jobs| && !Active(t.list, id) ensures w.jobs[id] == Choose && w.pool == [] {
      if Active(s.list, id) && id != c.id { SetActive(s.list, s.control.at, c, id); }
    }
  }

  /** The work of the coroutine in control, short of the yield: the scheduler does not see it. */
  lemma WorkSched(w: World, v: World)
    requires SchedOk(w) && CanAct(w) && v.sched == w.sched && |v.jobs| == |w.jobs| && (w.pool == [] ==> v.pool == [])
    requires forall id :: 0 <= id < |w.jobs| && id != S.This(w.sched).id ==> v.jobs[id] == w.jobs[id]
    ensures SchedOk(v)
  {
    assert Active(w.sched.list, S.This(w.sched).id);
  }

  lemma RemoveActive(list: seq<S.Coro>, k: nat, id: nat)
    requires k < |list| && list[k].finished && Active(list, id)
    ensures Active(list[..k] + list[k + 1..], id)
  {
    var rest := list[..k] + list[k + 1..];
    var i :| 0 <= i < |list| && list[i].id == id && !list[i].finished;
    assert rest[if i < k then i else i - 1] == list[i];
  }

  lemma ScheduleOk(w: World)
    requires SchedOk(w) && w.sched.control == S.Scheduler && w.sched.list != []
    ensures SchedOk(w.(sched := Schedule(w.sched)))
  {
    var s, t := w.sched, Schedule(w.sched);
    var k := S.FirstFinished(s.list);
    forall id: nat ensures S.Count(t, id) == if id < t.next then 1 else 0 {
      if k < |s.list| { S.RemoveCount(s.(waiting := false), k, id); }
      assert S.Count(s, id) == if id < s.next then 1 else 0;
    }
    forall id | 0 <= id < |w.jobs| && !Active(t.list, id) ensures w.jobs[id] == Choose && w.pool == [] {
      if Active(s.list, id) && k < |s.list| { RemoveActive(s.list, k, id); }
    }
  }

  lemma ActSched(w: World, late: bool)
    requires SchedOk(w) && CanAct(w) && !Act(w, late).crashed
    ensures SchedOk(Act(w, late))
  {
    hide SchedOk, S.CoroYield, S.CoroEnd, Merged, SortPlan;
    var id, v := S.This(w.sched).id, Act(w, late);
    if w.jobs[id] == Choose && w.pool == [] {
      EndSched(w);
    } else {
      var u := v.(sched := w.sched);
      WorkSched(w, u);
      if v.sched != w.sched { YieldSched(u); }
    }
  }

  lemma PoolNamed(w: World, names: seq<string>)
    requires FilesOk(w, names) && w.pool != []
    ensures w.pool[|w.pool| - 1] in names
  {
    var name := w.pool[|w.pool| - 1];
    assert multiset(w.pool)[name] > 0;
    assert multiset(names)[name] > 0;
  }

  /** The next job of the coroutine in control, and what it means for the files. */
  lemma ActJob(w: World, late: bool, names: seq<string>)
    requires Inv(w, names) && CanAct(w) && !Act(w, late).crashed
    ensures var id, v := S.This(w.sched).id, Act(w, late);
            && |v.jobs| == |w.jobs| && JobOk(v.jobs[id], w.input, names) && v.input == w.input
            && (forall k :: 0 <= k < |w.jobs| && k != id ==> v.jobs[k] == w.jobs[k])
            && (forall name :: TakenOk(w.jobs[id], w.disk, w.input, name) ==> TakenOk(v.jobs[id], v.disk, v.input, name))
  {
    hide SchedOk, Sort, S.CoroYield, S.CoroEnd;
    var id := S.This(w.sched).id;
    var job := w.jobs[id];
    assert JobOk(job, w.input, names);
    match job
    case Choose =>
      if w.pool != [] { PoolNamed(w, names); }
    case Input(name) =>
      SingleRuns(w.disk[name]);
      SortPlanSorts(w.disk[name], 1);
    case Sorts(name, values, ops) =>
  }

  lemma SortTwice(s: seq<int>)
    ensures Sort(Sort(s)) == Sort(s) && |Sort(s)| == |s|
  {
    SortSorts(s);
    SortSorts(Sort(s));
    SortedIsSort(s, Sort(Sort(s)));
  }

  lemma ActDisk(w: World, late: bool, names: seq<string>)
    requires Inv(w, names) && CanAct(w) && !Act(w, late).crashed
    ensures DiskOk(Act(w, late))
    ensures var v := Act(w, late);
            && (forall name :: name in w.input && name !in names ==> name in v.disk && v.disk[name] == w.input[name])
            && (forall name :: name in w.disk && w.disk[name] == Sort(w.input[name]) ==> name in v.disk && v.disk[name] == w.disk[name])
  {
    hide SchedOk, Sort, S.CoroYield, S.CoroEnd, Merged, SortPlan;
    var job := w.jobs[S.This(w.sched).id];
    assert JobOk(job, w.input, names);
    if job.Sorts? && |job.ops| == 0 {
      SortTwice(w.input[job.name]);
    }
  }

  lemma ActTaken(w: World, late: bool, names: seq<string>)
    requires Inv(w, names) && CanAct(w) && !Act(w, late).crashed
    ensures var v := Act(w, late);
            forall d :: d in v.taken ==> d.coro < |v.jobs| && TakenOk(v.jobs[d.coro], v.disk, v.input, d.fileName)
  {
    var id, v := S.This(w.sched).id, Act(w, late);
    ActJob(w, late, names);
    ActDisk(w, late, names);
    hide SchedOk, Sort, S.CoroYield, S.CoroEnd, Merged, SortPlan, JobOk;
    forall d | d in v.taken ensures d.coro < |v.jobs| && TakenOk(v.jobs[d.coro], v.disk, v.input, d.fileName) {
      if d in w.taken {
        assert TakenOk(w.jobs[d.coro], w.disk, w.input, d.fileName);
      }
    }
  }

  lemma ActPool(w: World, late: bool, names: seq<string>)
    requires multiset(Names(w.taken)) + multiset(w.pool) == multiset(names) && CanAct(w)
    ensures multiset(Names(Act(w, late).taken)) + multiset(Act(w, late).pool) == multiset(names)
  {
    hide S.CoroYield, S.CoroEnd, Merged, SortPlan, Names, InRange;
    var id := S.This(w.sched).id;
    if w.jobs[id] == Choose && w.pool != [] {
      var last, rest := w.pool[|w.pool| - 1], w.pool[..|w.pool| - 1];
      NamesAppend(w.taken, Dealt(id, last));
      assert w.pool == rest + [last];
      assert Act(w, late).taken == w.taken + [Dealt(id, last)] && Act(w, late).pool == rest;
    }
  }

  /** Every step keeps the invariant, but that into a crash, which some name is to blame for. */
  lemma StepInv(w: World, late: bool, names: seq<string>)
    requires Inv(w, names) && !Over(w)
    ensures w.sched.control != S.Scheduler ==> CanAct(w)
    ensures var v := Step(w, late); v.input == w.input && if v.crashed then Blamed(w.input, names) else Inv(v, names)
  {
    hide SchedOk, FilesOk;
    if w.sched.control == S.Scheduler {
      ScheduleOk(w);
      SameFiles(w, w.(sched := Schedule(w.sched)), names);
    } else {
      InvCanAct(w, names);
      if Act(w, late).crashed { CrashBlamed(w, late, names); } else { ActFiles(w, late, names); ActSched(w, late); }
    }
  }

  /** A name of no file, or of an empty one. */
  ghost predicate Blamed(input: Disk, names: seq<string>) { exists name :: name in names && !Fine(input, name) }

  lemma CrashBlamed(w: World, late: bool, names: seq<string>)
    requires Inv(w, names) && CanAct(w) && Act(w, late).crashed
    ensures Blamed(w.input, names) && Act(w, late).input == w.input
  {
    hide SchedOk;
    var job := w.jobs[S.This(w.sched).id];
    assert JobOk(job, w.input, names);
    assert job.Input?;
    assert !Fine(w.input, job.name);
  }

  lemma SameFiles(w: World, v: World, names: seq<string>)
    requires FilesOk(w, names) && v == w.(sched := v.sched)
    ensures FilesOk(v, names)
  {
  }

  lemma ActFiles(w: World, late: bool, names: seq<string>)
    requires Inv(w, names) && CanAct(w) && !Act(w, late).crashed
    ensures FilesOk(Act(w, late), names) && Act(w, late).input == w.input
  {
    hide SchedOk, DiskOk, JobOk, TakenOk, Act;
    ActJob(w, late, names);
    ActDisk(w, late, names);
    ActTaken(w, late, names);
    ActPool(w, late, names);
  }

  // ---------------------------------------------------------------- it ends

  /** The steps a coroutine has yet to take before it polls again. */
  function Steps(input: Disk, job: Job): nat {
    match job
    case Choose => 0
    case Input(name) => if name in input then 2 + |SortPlan(|input[name]|, 1)| else 0
    case Sorts(_, _, ops) => 1 + |ops|
  }

  function Pending(w: World): (r: seq<nat>)
    ensures |r| == |w.jobs| && forall id :: 0 <= id < |r| ==> r[id] == Steps(w.input, w.jobs[id])
  {
    seq(|w.jobs|, id requires 0 <= id < |w.jobs| => Steps(w.input, w.jobs[id]))
  }

  function Left(w: World): nat { ClaimingRuns.Sum(Pending(w)) }

  function Waits(w: World): nat { if w.sched.control == S.Scheduler then 1 else 0 }

  /** v is nearer to the end: fewer names, steps, coroutines at work, coroutines listed, or one in control. */
  predicate Nearer(w: World, v: World) {
    || |v.pool| < |w.pool|
    || (|v.pool| == |w.pool| && Left(v) < Left(w))
    || (|v.pool| == |w.pool| && Left(v) == Left(w) && S.Work(v.sched.list) < S.Work(w.sched.list))
    || (|v.pool| == |w.pool| && Left(v) == Left(w) && S.Work(v.sched.list) == S.Work(w.sched.list) && |v.sched.list| < |w.sched.list|)
    || (|v.pool| == |w.pool| && Left(v) == Left(w) && v.sched.list == w.sched.list && Waits(v) < Waits(w))
  }

  lemma SetLeft(w: World, v: World, id: nat)
    requires id < |w.jobs| == |v.jobs| && v.input == w.input && v.jobs == w.jobs[id := v.jobs[id]]
    ensures Left(v) == Left(w) - Steps(w.input, w.jobs[id]) + Steps(w.input, v.jobs[id])
  {
    assert Pending(v) == Pending(w)[id := Steps(w.input, v.jobs[id])];
    ClaimingRuns.SumUpdate(Pending(w), id, Steps(w.input, v.jobs[id]));
  }

  lemma ActNearer(w: World, late: bool, names: seq<string>)
    requires Inv(w, names) && CanAct(w) && !Act(w, late).crashed
    ensures Nearer(w, Act(w, late))
  {
    var id, v := S.This(w.sched).id, Act(w, late);
    hide S.CoroYield, Merged, SortPlan, JobOk, Sort;
    if w.jobs[id] == Choose && w.pool == [] {
      assert !S.This(w.sched).finished;
      S.WorkUpdate(w.sched.list, w.sched.control.at, S.This(w.sched).(ret := 0, finished := true));
    } else {
      SetLeft(w, v, id);
    }
  }

  lemma ScheduleNearer(w: World)
    requires w.sched.control == S.Scheduler && w.sched.list != []
    ensures Nearer(w, w.(sched := Schedule(w.sched)))
  {
    var s := w.sched;
    var v := w.(sched := Schedule(s));
    var k := S.FirstFinished(s.list);
    if k < |s.list| { S.WorkRemove(s.list, k); }
    assert Pending(v) == Pending(w);
  }

  lemma StepNearer(w: World, late: bool, names: seq<string>)
    requires Inv(w, names) && !Over(w)
    ensures w.sched.control != S.Scheduler ==> CanAct(w)
    ensures !Step(w, late).crashed ==> Nearer(w, Step(w, late))
  {
    hide Inv, Nearer;
    StepInv(w, late, names);
    if w.sched.control == S.Scheduler { ScheduleNearer(w); }
    else if !Act(w, late).crashed { ActNearer(w, late, names); }
  }

  /** The main loop; `late(t)` is what the clock says after step t. */
  ghost function Run(w: World, late: nat -> bool, t: nat, names: seq<string>): World
    requires Inv(w, names)
    decreases |w.pool|, Left(w), S.Work(w.sched.list), |w.sched.list|, Waits(w)
  {
    if Over(w) then w
    else
      StepInv(w, late(t), names);
      StepNearer(w, late(t), names);
      var v := Step(w, late(t));
      if v.crashed then v else Run(v, late, t + 1, names)
  }

  lemma {:induction false} RunEnds(w: World, late: nat -> bool, t: nat, names: seq<string>)
    requires Inv(w, names)
    ensures var v := Run(w, late, t, names);
            Over(v) && v.input == w.input && |v.jobs| == |w.jobs| && if v.crashed then Blamed(w.input, names) else Inv(v, names)
    decreases |w.pool|, Left(w), S.Work(w.sched.list), |w.sched.list|, Waits(w)
  {
    NotCrashed(w, names);
    hide Inv, Blamed, Step, Left;
    if !Over(w) {
      StepInv(w, late(t), names);
      StepNearer(w, late(t), names);
      KeepsJobs(w, late(t), names);
      var v := Step(w, late(t));
      if !v.crashed { RunEnds(v, late, t + 1, names); }
    }
  }

  lemma NotCrashed(w: World, names: seq<string>)
    requires Inv(w, names)
    ensures !w.crashed
  {
  }

  lemma KeepsJobs(w: World, late: bool, names: seq<string>)
    requires Inv(w, names) && !Over(w) && (w.sched.control != S.Scheduler ==> CanAct(w))
    ensures |Step(w, late).jobs| == |w.jobs|
  {
    hide Inv, Merged, SortPlan, S.CoroYield, S.CoroEnd, Schedule;
  }

  // ---------------------------------------------------------------- from start to end

  /** coro_new, n times. */
  function Created(n: nat): S.State {
    if n == 0 then S.Init() else S.CoroNew(Created(n - 1), S.Finish(0))
  }

  function Start(names: seq<string>, input: Disk, n: nat): World {
    World(names, input, input, seq(n, _ => Choose), Created(n), [], false)
  }

  lemma {:induction false} CreatedOk(n: nat)
    ensures var s := Created(n);
            && Accounted(s) && s.next == n && !s.crashed && s.control == S.Scheduler && s.returned == []
            && (forall i :: 0 <= i < |s.list| ==> s.list[i].id < n)
            && (forall id :: 0 <= id < n ==> Active(s.list, id))
  {
    if n == 0 {
      assert S.Ids([]) == [];
    } else {
      var r, s := Created(n - 1), Created(n);
      CreatedOk(n - 1);
      forall id: nat ensures S.Count(s, id) == if id < n then 1 else 0 { S.NewCount(r, S.Finish(0), id); }
      assert s.list[0] == S.Fresh(n - 1, S.Finish(0)) && s.list[1..] == r.list;
      forall id | 0 <= id < n ensures Active(s.list, id) {
        if id < n - 1 {
          assert Active(r.list, id);
          var i :| 0 <= i < |r.list| && r.list[i].id == id && !r.list[i].finished;
          assert s.list[i + 1] == r.list[i];
        } else {
          assert s.list[0].id == id;
        }
      }
    }
  }

  lemma StartInv(names: seq<string>, input: Disk, n: nat)
    ensures Inv(Start(names, input, n), names)
  {
    CreatedOk(n);
  }

  /** NULL has been handed out, and there was a coroutine: every file of the pool is written, by the one coroutine that took it. */
  lemma EndSorted(w: World, names: seq<string>)
    requires Inv(w, names) && Over(w) && |w.jobs| >= 1
    ensures multiset(Names(w.taken)) == multiset(names)
    ensures forall name :: name in names ==> Fine(w.input, name) && name in w.disk && w.disk[name] == Sort(w.input[name])
    ensures forall id: nat :: multiset(w.sched.returned)[id] == if id < |w.jobs| then 1 else 0
  {
    assert forall id :: 0 <= id < |w.jobs| ==> !Active(w.sched.list, id);
    assert !Active(w.sched.list, 0) && w.pool == [];
    forall id: nat ensures multiset(w.sched.returned)[id] == if id < |w.jobs| then 1 else 0 {
      assert S.Count(w.sched, id) == if id < w.sched.next then 1 else 0;
      assert S.Ids(w.sched.list) == [];
    }
    forall name | name in names ensures Fine(w.input, name) && name in w.disk && w.disk[name] == Sort(w.input[name]) {
      assert multiset(names)[name] > 0;
      var d := SomeTaker(w.taken, name);
      assert TakenOk(w.jobs[d.coro], w.disk, w.input, d.fileName);
      assert !Active(w.sched.list, d.coro);
    }
  }

  lemma {:induction false} SomeTaker(taken: seq<Dealt>, name: string) returns (d: Dealt)
    requires name in multiset(Names(taken))
    ensures d in taken && d.fileName == name
  {
    if taken[0].fileName == name {
      d := taken[0];
    } else {
      d := SomeTaker(taken[1..], name);
    }
  }

  /**
   For any names, files, clock and number of coroutines but zero: the program crashes
   exactly if a name has no file or an empty one. Otherwise it comes to the NULL of
   coro_sched_wait, each coroutine has been handed out once, each entry of the pool went
   to one coroutine, each file holds its sorted permutation, and the others are as before.
   */
  lemma EveryFileSorted(names: seq<string>, input: Disk, n: nat, late: nat -> bool)
    requires n >= 1
    ensures Inv(Start(names, input, n), names)
    ensures var w := Run(Start(names, input, n), late, 0, names);
            && (w.crashed <==> exists name :: name in names && (name !in input || input[name] == []))
            && (!w.crashed ==>
                 && w.sched.control == S.Scheduler && w.sched.list == []
                 && (forall id: nat :: multiset(w.sched.returned)[id] == if id < n then 1 else 0)
                 && multiset(Names(w.taken)) == multiset(names) && (forall d :: d in w.taken ==> d.coro < n)
                 && w.disk.Keys == input.Keys
                 && forall name :: name in input ==> w.disk[name] == if name in names then Sort(input[name]) else input[name])
  {
    hide S.Count, Active, SortPlan;
    var s := Start(names, input, n);
    StartInv(names, input, n);
    RunEnds(s, late, 0, names);
    var w := Run(s, late, 0, names);
    if !w.crashed { EndSorted(w, names); }
  }

  /** What merge_all_files reads: the files of the names, the last one first. */
  function Contents(disk: Disk, names: seq<string>): (r: seq<seq<int>>)
    requires forall name :: name in names ==> name in disk
    ensures |r| == |names| && forall f :: 0 <= f < |r| ==> r[f] == disk[names[|names| - 1 - f]]
  {
    seq(|names|, f requires 0 <= f < |names| => disk[names[|names| - 1 - f]])
  }

  /** What it merges is sorted, and the merge is the sorted permutation of all the files as they were. */
  lemma AllFilesMerged(names: seq<string>, input: Disk, n: nat, late: nat -> bool)
    requires n >= 1 && forall name :: name in names ==> name in input && input[name] != []
    ensures Inv(Start(names, input, n), names)
    ensures var w := Run(Start(names, input, n), late, 0, names);
            && (forall name :: name in names ==> name in w.disk)
            && KWayMerge.AllSorted(Contents(w.disk, names))
            && Sort(KWayMerge.Union(Contents(w.disk, names))) == Sort(KWayMerge.Union(Contents(input, names)))
  {
    hide Inv, Run;
    EveryFileSorted(names, input, n, late);
    ClaimingRuns.SortedFilesMerge(Contents(input, names), Contents(Run(Start(names, input, n), late, 0, names).disk, names));
  }
}
