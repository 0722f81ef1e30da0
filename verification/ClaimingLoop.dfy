/** The sorting program on the linked event loop: its runs are those of `ClaimingRuns`. */
module ClaimingLoop {
  import opened Sorting
  import opened TopDownSort
  import opened Claiming
  import opened ClaimingRuns
  import opened ClaimingTurns
  import opened Libcoro
  import R = CoroRing

  /** The search for a file with status 0. */
  method FindFree(files: seq<File>, start: nat) returns (k: nat)
    requires start <= |files|
    ensures k == Scan(files, start)
  {
    k := start;
    while k < |files|
      invariant start <= k <= |files| && Scan(files, start) == Scan(files, k)
    {
      if !files[k].claimed {
        return;
      }
      k := k + 1;
    }
  }

  /** What coroutine `id` does up to the next place where it may yield, or to its end. */
  method ActOne(files: seq<File>, jobs: seq<Job>, id: nat, ghost w: World)
    returns (files': seq<File>, jobs': seq<Job>, mayYield: bool, ended: bool)
    requires CanStep(w) && w.files == files && w.jobs == jobs && id == R.Current(w.loop).id
    ensures files' == Act(w).files && jobs' == Act(w).jobs && mayYield == YieldsAfter(w)
    ensures Act(w).loop == if ended then R.Retire(w.loop) else w.loop
    ensures ended ==> !mayYield
  {
    files', jobs', mayYield, ended := files, jobs, false, false;
    var f := jobs[id].cursor;
    match jobs[id].phase
    case Claim =>
      var k := FindFree(files, f);
      if k == |files| {
        jobs' := jobs[id := Job(k, Claim)];
        ended := true;
      } else {
        files' := files[k := files[k].(claimed := true)];
        jobs' := jobs[id := Job(k, Input)];
        mayYield := true;
      }
    case Input =>
      files' := files[f := files[f].(result := files[f].input)];
      jobs' := jobs[id := Job(f, Sorts(Plan(0, |files[f].input|)))];
      mayYield := true;
    case Sorts(ops) =>
      if |ops| == 0 {
        jobs' := jobs[id := Job(f, Claim)];
      } else {
        files' := files[f := files[f].(result := Merged(files[f].result, ops[0].from, ops[0].mid, ops[0].to))];
        jobs' := jobs[id := Job(f, Sorts(ops[1..]))];
        mayYield := ops[0].to - ops[0].from > 2;
      }
  }

  /** One round of the run: where it goes on, and that this is nearer to the end. */
  lemma RunStep(w: World, late: nat -> bool, t: nat)
    requires Inv(w) && w.loop.nodes != []
    ensures CanStep(w) && Inv(Step(w, late(t))) && Run(w, late, t) == Run(Step(w, late(t)), late, t + 1)
    ensures var v := Step(w, late(t)); var x, y := Sum(Unclaimed(w.files)), Sum(Unclaimed(v.files));
            var p, q := Sum(Pending(w.files, w.jobs)), Sum(Pending(v.files, v.jobs));
            y < x || (y == x && q < p) || (y == x && q == p && |v.loop.nodes| < |w.loop.nodes|)
  {
    hide Inv;
    InvCanStep(w);
    ActNearsEnd(w);
    StepInv(w, late(t));
  }

  /** The program: creates n coroutines and runs the loop to its end; `taken` says who claimed what. */
  method Execute(inputs: seq<seq<int>>, garbage: seq<int>, n: nat, late: nat -> bool) returns (files: seq<File>, ghost taken: seq<Taken>)
    ensures var s := Start(inputs, garbage, n); Inv(s) && files == Run(s, late, 0).files && taken == Run(s, late, 0).taken
    ensures n >= 1 ==> |files| == |inputs| && forall f :: 0 <= f < |inputs| ==> files[f].result == Sort(inputs[f])
    ensures LateUntil(late, n) ==> InTurn(taken, Least(n, |inputs|))
    ensures n >= 1 && NeverLate(late) ==> AllByFirst(taken, |inputs|)
  {
    hide *;
    files, taken := RunLoop(inputs, garbage, n, late);
    if n >= 1 {
      EveryFileSorted(inputs, garbage, n, late);
      if NeverLate(late) { FirstTakesAll(inputs, garbage, n, late); }
    }
    if LateUntil(late, n) { LateTakesTurns(inputs, garbage, n, late); }
  }

  method RunLoop(inputs: seq<seq<int>>, garbage: seq<int>, n: nat, late: nat -> bool) returns (files: seq<File>, ghost taken: seq<Taken>)
    ensures var s := Start(inputs, garbage, n); Inv(s) && files == Run(s, late, 0).files && taken == Run(s, late, 0).taken
  {
    hide Inv, Run, CanStep, Sum, Unclaimed, Pending, Step, Act, YieldsAfter, StartLoop, R.Retire, R.CoroYield;
    var loop := NewLoop(n);
    StartInv(inputs, garbage, n);
    ghost var w := Start(inputs, garbage, n);
    ghost var cur := 0;
    files := seq(|inputs|, f requires 0 <= f < |inputs| => File(false, inputs[f], garbage));
    var jobs := seq(n, _ => Job(0, Claim));
    loop.Begin();
    var t := 0;
    while loop.sentinel.next != loop.sentinel
      invariant loop.Valid() && |loop.ring| >= 2 && (loop.sentinel.next == loop.sentinel <==> |loop.ring| == 2)
      invariant (loop.At(cur) || |loop.ring| == 2) && fresh(loop) && fresh(Nodes(loop.ring))
      invariant Inv(w) && w.files == files && w.jobs == jobs && w.loop == loop.Model(cur)
      invariant Run(w, late, t) == Run(Start(inputs, garbage, n), late, 0)
      decreases Sum(Unclaimed(w.files)), Sum(Pending(w.files, w.jobs)), |w.loop.nodes|
    {
      RunStep(w, late, t);
      StepParts(w, late(t));
      ghost var after := Step(w, late(t));
      var mayYield, ended;
      files, jobs, mayYield, ended := ActOne(files, jobs, loop.current.id, w);
      if ended {
        cur := loop.Retire(cur);
      } else if mayYield && late(t) {
        cur := loop.CoroYield(cur);
      }
      w := after;
      loop.First();
      t := t + 1;
    }
    RunOver(w, late, t);
    taken := w.taken;
  }

  lemma StepParts(w: World, late: bool)
    requires CanStep(w)
    ensures Step(w, late).files == Act(w).files && Step(w, late).jobs == Act(w).jobs
    ensures !(YieldsAfter(w) && late) ==> Step(w, late).loop == Act(w).loop
    ensures YieldsAfter(w) && late ==> R.Running(Act(w).loop) && Step(w, late).loop == R.CoroYield(Act(w).loop)
  {
  }

  lemma RunOver(w: World, late: nat -> bool, t: nat)
    requires Inv(w) && w.loop.nodes == []
    ensures Run(w, late, t) == w
  {
  }

  /** loop_init and the coro_create calls of main. */
  method NewLoop(n: nat) returns (loop: EventLoop)
    ensures loop.Valid() && |loop.ring| >= 2 && fresh(loop) && fresh(Nodes(loop.ring)) && loop.Model(0) == StartLoop(n)
  {
    hide IsRing;
    loop := new EventLoop();
    RingEnds(loop.ring);
    var i := 0;
    while i < n
      invariant i <= n && loop.Valid() && |loop.ring| >= 2 && fresh(loop) && fresh(Nodes(loop.ring))
      invariant loop.Model(0) == StartLoop(i)
    {
      loop.CoroCreate(R.Return);
      RingEnds(loop.ring);
      i := i + 1;
    }
  }
}
