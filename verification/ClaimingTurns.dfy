/**
 Whose turn it is in the sorting program: exactly when a coroutine gives way to the
 next, and what clocks that are always or never late make of a run.
 */
module ClaimingTurns {
  import opened Sorting
  import opened TopDownSort
  import opened Claiming
  import opened ClaimingRuns
  import R = CoroRing

  // ---------------------------------------------------------------- one step

  /** The running coroutine finds no file and ends. */
  predicate Ends(w: World)
    requires CanStep(w)
  {
    var job := w.jobs[R.Current(w.loop).id];
    job.phase == Claim && forall f :: job.cursor <= f < |w.files| ==> w.files[f].claimed
  }

  /** It has claimed a file, or read one, or merged more than two values. */
  predicate LooksAtClock(w: World)
    requires CanStep(w)
  {
    var job := w.jobs[R.Current(w.loop).id];
    match job.phase
    case Claim => !Ends(w)
    case Input => true
    case Sorts(ops) => ops != [] && ops[0].to - ops[0].from > 2
  }

  /**
   After a step the second coroutine of the ready queue runs, and the first goes to its
   end, exactly if the first has looked at its clock and is late. Otherwise it runs on,
   unless it has ended.
   */
  lemma TurnLaw(w: World, late: bool)
    requires CanStep(w)
    ensures var q, l := R.Queue(w.loop), Step(w, late).loop;
            && (Ends(w) ==> l == R.Retire(w.loop) && (|q| > 1 ==> R.Running(l) && R.Queue(l) == q[1..]))
            && (!Ends(w) ==> R.Running(l) && R.Queue(l) == if LooksAtClock(w) && late then q[1..] + [q[0]] else q)
  {
    var job := w.jobs[R.Current(w.loop).id];
    if Ends(w) {
      if |w.loop.nodes| > 1 { R.RetireDropsHead(w.loop); }
    } else {
      assert job.phase == Claim ==> Scan(w.files, job.cursor) < |w.files|;
      R.YieldRotates(w.loop);
    }
  }

  // ---------------------------------------------------------------- a clock that is always late

  lemma {:induction false} TakenGrows(w: World, late: nat -> bool, t: nat)
    requires Inv(w)
    ensures w.taken <= Run(w, late, t).taken
    decreases Sum(Unclaimed(w.files)), Sum(Pending(w.files, w.jobs)), |w.loop.nodes|
  {
    hide Inv;
    if w.loop.nodes != [] {
      InvCanStep(w);
      ActNearsEnd(w);
      StepInv(w, late(t));
      TakenGrows(Step(w, late(t)), late, t + 1);
    }
  }

  /** The first k coroutines have each claimed a file and given way. */
  ghost predicate Round(w: World, k: nat) {
    var n := |w.jobs|;
    && k <= n && |w.loop.nodes| == n && (forall i :: 0 <= i < n ==> w.loop.nodes[i].id == i)
    && w.loop.cur == (if k == n then 0 else k)
    && |w.taken| == k && (forall i :: 0 <= i < k ==> w.taken[i] == Taken(i, i))
    && k <= |w.files| && (forall f :: 0 <= f < |w.files| ==> (w.files[f].claimed <==> f < k))
    && (forall j :: k <= j < n ==> w.jobs[j] == Job(0, Claim))
  }

  lemma {:induction false} ScanIs(files: seq<File>, i: nat, k: nat)
    requires i <= k < |files| && !files[k].claimed && forall f :: i <= f < k ==> files[f].claimed
    ensures Scan(files, i) == k
    decreases k - i
  {
    if i < k {
      ScanIs(files, i + 1, k);
    }
  }

  lemma RoundStep(w: World, k: nat)
    requires Round(w, k) && k < |w.jobs| && k < |w.files| && CanStep(w)
    ensures Round(Step(w, true), k + 1)
  {
    assert R.Current(w.loop).id == k;
    ScanIs(w.files, 0, k);
  }

  lemma {:induction false} RoundGoesOn(w: World, late: nat -> bool, t: nat, k: nat, m: nat)
    requires Inv(w) && Round(w, k) && k <= m <= |w.jobs| && m <= |w.files|
    requires forall u: nat :: t <= u < t + (m - k) ==> late(u)
    ensures var r := Run(w, late, t).taken; m <= |r| && forall i :: 0 <= i < m ==> r[i] == Taken(i, i)
    decreases m - k
  {
    hide Inv, Run;
    if k == m {
      TakenGrows(w, late, t);
    } else {
      InvCanStep(w);
      StepInv(w, true);
      RoundStep(w, k);
      StepKeepsSizes(w, true);
      RunUnfolds(w, late, t);
      RoundGoesOn(Step(w, true), late, t + 1, k + 1, m);
    }
  }

  lemma RunUnfolds(w: World, late: nat -> bool, t: nat)
    requires Inv(w) && w.loop.nodes != []
    ensures CanStep(w) && Inv(Step(w, late(t))) && Run(w, late, t) == Run(Step(w, late(t)), late, t + 1)
  {
    hide Inv;
    InvCanStep(w);
    ActNearsEnd(w);
    StepInv(w, late(t));
  }

  lemma StepKeepsSizes(w: World, late: bool)
    requires CanStep(w)
    ensures |Step(w, late).jobs| == |w.jobs| && |Step(w, late).files| == |w.files|
  {
  }

  /** Every quantum has run out up to step n. */
  ghost predicate LateUntil(late: nat -> bool, n: nat) { forall t: nat :: t < n ==> late(t) }

  ghost predicate NeverLate(late: nat -> bool) { forall t: nat :: !late(t) }

  /** The first `count` claims: file i by coroutine i. */
  ghost predicate InTurn(taken: seq<Taken>, count: nat) { count <= |taken| && forall i :: 0 <= i < count ==> taken[i] == Taken(i, i) }

  /** Coroutine 0 has claimed all `count` files. */
  ghost predicate AllByFirst(taken: seq<Taken>, count: nat) { |taken| == count && forall i :: 0 <= i < count ==> taken[i] == Taken(0, i) }

  /** While every quantum has run out, files are claimed in turn, one coroutine after the other. */
  lemma LateTakesTurns(inputs: seq<seq<int>>, garbage: seq<int>, n: nat, late: nat -> bool)
    requires LateUntil(late, n)
    ensures Inv(Start(inputs, garbage, n))
    ensures InTurn(Run(Start(inputs, garbage, n), late, 0).taken, Least(n, |inputs|))
  {
    var w := Start(inputs, garbage, n);
    StartInv(inputs, garbage, n);
    StartLoopOk(n);
    RoundGoesOn(w, late, 0, 0, Least(n, |inputs|));
  }

  // ---------------------------------------------------------------- a clock that is never late

  /** Coroutine 0 has claimed the first files, and runs until all are claimed. */
  ghost predicate Alone(w: World) {
    && |w.taken| <= |w.files|
    && (forall i :: 0 <= i < |w.taken| ==> w.taken[i] == Taken(0, i))
    && (forall f :: 0 <= f < |w.files| ==> (w.files[f].claimed <==> f < |w.taken|))
    && (|w.taken| == |w.files| || (R.Running(w.loop) && R.Current(w.loop).id == 0))
  }

  lemma AloneStep(w: World)
    requires Inv(w) && CanStep(w) && Alone(w)
    ensures Alone(Step(w, false))
  {
    hide LoopOk, TakenOk, WorkOk, Merged, Plan, InRange;
    var id := R.Current(w.loop).id;
    var job := w.jobs[id];
    assert CursorsOk(w);
    if job.phase == Claim && |w.taken| < |w.files| {
      if job.cursor > 0 { assert w.files[job.cursor - 1].claimed; }
      ScanIs(w.files, job.cursor, |w.taken|);
    }
  }

  lemma {:induction false} AloneToTheEnd(w: World, late: nat -> bool, t: nat)
    requires Inv(w) && Alone(w) && forall u :: !late(u)
    ensures Alone(Run(w, late, t))
    decreases Sum(Unclaimed(w.files)), Sum(Pending(w.files, w.jobs)), |w.loop.nodes|
  {
    hide Inv, Alone;
    if w.loop.nodes != [] {
      InvCanStep(w);
      ActNearsEnd(w);
      StepInv(w, late(t));
      AloneStep(w);
      AloneToTheEnd(Step(w, late(t)), late, t + 1);
    }
  }

  /** When no quantum ever runs out, the first coroutine claims every file. */
  lemma FirstTakesAll(inputs: seq<seq<int>>, garbage: seq<int>, n: nat, late: nat -> bool)
    requires n >= 1 && NeverLate(late)
    ensures Inv(Start(inputs, garbage, n))
    ensures AllByFirst(Run(Start(inputs, garbage, n), late, 0).taken, |inputs|)
  {
    var w := Start(inputs, garbage, n);
    StartInv(inputs, garbage, n);
    StartLoopOk(n);
    AloneToTheEnd(w, late, 0);
    EveryFileSorted(inputs, garbage, n, late);
    AllTaken(Run(w, late, 0));
  }

  lemma AllTaken(w: World)
    requires Alone(w) && forall f :: 0 <= f < |w.files| ==> TakenOnce(w.taken, f)
    ensures |w.taken| == |w.files|
  {
    if w.files != [] { assert TakenOnce(w.taken, |w.files| - 1); }
  }
}
