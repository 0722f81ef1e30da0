/** Whose turn it is in the reference program: every choice of a file gives way, a merge only if the clock says so. */
module ReferenceTurns {
  import opened FilePool
  import opened ReferenceSorting
  import S = SchedulerModel

  // ---------------------------------------------------------------- one step

  /** Behind coroutine `at` of the list the next one runs, and behind the last the scheduler. */
  function Behind(s: S.State, at: nat): S.Control { if at + 1 < |s.list| then S.Runs(at + 1) else S.Scheduler }

  /** The coroutine in control has chosen a file, or has merged and is late. */
  predicate GivesWay(w: World, late: bool)
    requires CanAct(w)
  {
    match w.jobs[S.This(w.sched).id]
    case Choose => w.pool != []
    case Input(_) => false
    case Sorts(_, _, ops) => ops != [] && late
  }

  predicate Ends(w: World)
    requires CanAct(w)
  {
    w.jobs[S.This(w.sched).id] == Choose && w.pool == []
  }

  /**
   A coroutine gives way, and makes a switch, exactly when it has chosen a file or has
   merged late. It gives control to the scheduler when it ends, and otherwise runs on.
   */
  lemma TurnLaw(w: World, late: bool)
    requires CanAct(w) && !Act(w, late).crashed
    ensures var s, t, at := w.sched, Act(w, late).sched, w.sched.control.at;
            && t.control == (if GivesWay(w, late) then Behind(s, at) else if Ends(w) then S.Scheduler else S.Runs(at))
            && |t.list| == |s.list| && (forall i :: 0 <= i < |s.list| && i != at ==> t.list[i] == s.list[i])
            && t.list[at].id == s.list[at].id
            && t.list[at].switches == (if GivesWay(w, late) then s.list[at].switches + 1 else s.list[at].switches)
            && t.list[at].finished == (Ends(w) || s.list[at].finished)
  {
  }

  // ---------------------------------------------------------------- the first round

  lemma {:induction false} TakenGrows(w: World, late: nat -> bool, t: nat, names: seq<string>)
    requires Inv(w, names)
    ensures w.taken <= Run(w, late, t, names).taken
    decreases |w.pool|, Left(w), S.Work(w.sched.list), |w.sched.list|, Waits(w)
  {
    hide Inv, Step, Left;
    if !Over(w) {
      StepInv(w, late(t), names);
      StepNearer(w, late(t), names);
      StepTakes(w, late(t));
      var v := Step(w, late(t));
      if !v.crashed { TakenGrows(v, late, t + 1, names); }
    }
  }

  lemma StepTakes(w: World, late: bool)
    requires !Over(w) && (w.sched.control != S.Scheduler ==> CanAct(w))
    ensures w.taken <= Step(w, late).taken && |Step(w, late).jobs| == |w.jobs|
  {
  }

  /** The last k created have each taken a name, the last ones of the pool. */
  ghost predicate Round(w: World, names: seq<string>, k: nat) {
    var n := |w.jobs|;
    && k <= n && k <= |names| && |w.sched.list| == n && (forall i :: 0 <= i < n ==> w.sched.list[i].id == n - 1 - i)
    && w.sched.control == (if k == n then S.Scheduler else S.Runs(k))
    && w.pool == names[..|names| - k]
    && |w.taken| == k && (forall i :: 0 <= i < k ==> w.taken[i] == Dealt(n - 1 - i, names[|names| - 1 - i]))
    && (forall i :: 0 <= i < n - k ==> w.jobs[i] == Choose)
  }

  lemma RoundStep(w: World, names: seq<string>, k: nat, late: bool)
    requires Round(w, names, k) && k < |w.jobs| && k < |names| && CanAct(w)
    ensures Round(Act(w, late), names, k + 1) && !Act(w, late).crashed
  {
    assert S.This(w.sched).id == |w.jobs| - 1 - k;
    var v := Act(w, late);
    assert v.pool == names[..|names| - (k + 1)];
  }

  lemma RunUnfolds(w: World, late: nat -> bool, t: nat, names: seq<string>)
    requires Inv(w, names) && !Over(w)
    ensures w.sched.control != S.Scheduler ==> CanAct(w)
    ensures !Step(w, late(t)).crashed ==>
              Inv(Step(w, late(t)), names) && Run(w, late, t, names) == Run(Step(w, late(t)), late, t + 1, names)
  {
    hide Inv;
    StepInv(w, late(t), names);
    StepNearer(w, late(t), names);
  }

  lemma {:induction false} RoundGoesOn(w: World, late: nat -> bool, t: nat, names: seq<string>, k: nat, m: nat)
    requires Inv(w, names) && Round(w, names, k) && k <= m <= |w.jobs| && m <= |names|
    ensures var r := Run(w, late, t, names).taken;
            m <= |r| && forall i :: 0 <= i < m ==> r[i] == Dealt(|w.jobs| - 1 - i, names[|names| - 1 - i])
    decreases m - k
  {
    hide *;
    if k == m {
      RoundTaken(w, names, k);
      TakenGrows(w, late, t, names);
    } else {
      RoundNext(w, late(t), names, k);
      RunUnfolds(w, late, t, names);
      RoundGoesOn(Step(w, late(t)), late, t + 1, names, k + 1, m);
    }
  }

  lemma RoundTaken(w: World, names: seq<string>, k: nat)
    requires Round(w, names, k)
    ensures |w.taken| == k && forall i :: 0 <= i < k ==> w.taken[i] == Dealt(|w.jobs| - 1 - i, names[|names| - 1 - i])
  {
  }

  lemma RoundNext(w: World, late: bool, names: seq<string>, k: nat)
    requires Inv(w, names) && Round(w, names, k) && k < |w.jobs| && k < |names|
    ensures !Over(w) && w.sched.control != S.Scheduler && CanAct(w)
    ensures var v := Step(w, late); !v.crashed && Round(v, names, k + 1) && |v.jobs| == |w.jobs|
  {
    InvCanAct(w, names);
    RoundStep(w, names, k, late);
    StepTakes(w, late);
  }

  lemma {:induction false} CreatedIds(n: nat)
    ensures |Created(n).list| == n
    ensures forall i :: 0 <= i < n ==> Created(n).list[i].id == n - 1 - i && !Created(n).list[i].finished
  {
    CreatedOk(n);
    if n > 0 {
      CreatedOk(n - 1);
      CreatedIds(n - 1);
      assert Created(n).list[1..] == Created(n - 1).list;
    }
  }

  /** Whatever the clock says, the first files are taken in turn, by the last coroutine created first. */
  lemma FirstRound(names: seq<string>, input: Disk, n: nat, late: nat -> bool)
    ensures Inv(Start(names, input, n), names)
    ensures var taken := Run(Start(names, input, n), late, 0, names).taken;
            forall i :: 0 <= i < n && i < |names| ==> i < |taken| && taken[i] == Dealt(n - 1 - i, names[|names| - 1 - i])
  {
    hide *;
    var w := Start(names, input, n);
    StartInv(names, input, n);
    if n > 0 {
      FirstScheduled(names, input, n, late(0));
      RunUnfolds(w, late, 0, names);
      RoundGoesOn(Step(w, late(0)), late, 1, names, 0, if n < |names| then n else |names|);
    }
  }

  lemma FirstScheduled(names: seq<string>, input: Disk, n: nat, late: bool)
    requires n > 0
    ensures var w := Start(names, input, n);
            && !Over(w) && w.sched.control == S.Scheduler && w.sched.list != [] && !Step(w, late).crashed
            && Round(Step(w, late), names, 0) && |Step(w, late).jobs| == n
  {
    CreatedIds(n);
    CreatedOk(n);
    assert names[..|names|] == names;
  }
}
