/**
 Running a command: the loop of command_exec with its mode flags, against the AND-OR
 lists of section 2.9.3 of the Shell Command Language (POSIX.1-2017): && and || are
 left-associative and of equal precedence.
 */
module ShellCommand {

  datatype Option<T> = None | Some(value: T)

  datatype Program = Program(argv: seq<string>, append: bool, output: Option<string>)

  datatype Operator = Null | And | Or

  datatype Entry = Entry(pipeline: seq<Program>, next: Operator)

  datatype Context = Context(exitCode: int, terminate: bool)

  /** A pipeline that was run, and what came of it. */
  datatype Done = Done(pipeline: seq<Program>, context: Context)

  /** pipe_list_exec: what a pipeline does may depend on everything that was run before it. */
  type System = (seq<Done>, seq<Program>) -> Context

  // ---------------------------------------------------------------- the standard's AND-OR lists

  datatype AndOr =
    | Pipeline(pipeline: seq<Program>)
    | AndList(left: AndOr, right: seq<Program>)
    | OrList(left: AndOr, right: seq<Program>)

  datatype Outcome = Outcome(context: Context, ran: seq<Done>)

  function RunPipeline(system: System, before: seq<Done>, pipeline: seq<Program>): Outcome {
    var context := system(before, pipeline);
    Outcome(context, before + [Done(pipeline, context)])
  }

  /** The right side runs if the left side's status asks for it; `exit` ends the whole list. */
  function Eval(system: System, before: seq<Done>, list: AndOr): Outcome {
    match list
    case Pipeline(p) => RunPipeline(system, before, p)
    case AndList(left, p) =>
      var l := Eval(system, before, left);
      if l.context.terminate || l.context.exitCode != 0 then l else RunPipeline(system, l.ran, p)
    case OrList(left, p) =>
      var l := Eval(system, before, left);
      if l.context.terminate || l.context.exitCode == 0 then l else RunPipeline(system, l.ran, p)
  }

  /** The list the first n entries write down. */
  function Tree(command: seq<Entry>, n: nat): AndOr
    requires 1 <= n <= |command|
  {
    var p := command[n - 1].pipeline;
    if n == 1 then Pipeline(p)
    else if command[n - 2].next == And then AndList(Tree(command, n - 1), p)
    else OrList(Tree(command, n - 1), p)
  }

  /** The entries up to the first without an operator. */
  function Length(command: seq<Entry>): (n: nat)
    ensures n <= |command| && (command != [] ==> n >= 1)
    ensures forall i :: 0 <= i < n - 1 ==> command[i].next != Null
    ensures 0 < n < |command| ==> command[n - 1].next == Null
  {
    if command == [] then 0
    else if command[0].next == Null then 1
    else 1 + Length(command[1..])
  }

  // ---------------------------------------------------------------- which pipelines run

  /** The status in front of an operator asks for what is behind it. */
  predicate Asked(operator: Operator, exitCode: int) { if operator == And then exitCode == 0 else exitCode != 0 }

  /** Entry `from` came to c, and no operator behind it asks for an entry before `to`. */
  predicate PassedOver(command: seq<Entry>, c: Context, from: nat, to: nat) {
    c.terminate || forall i :: from <= i < to - 1 && i < |command| ==> !Asked(command[i].next, c.exitCode)
  }

  /** The next entry run after `from`, which came to c, is `to`. */
  predicate GoesOn(command: seq<Entry>, c: Context, from: nat, to: nat) {
    from < to < |command| && !c.terminate && Asked(command[to - 1].next, c.exitCode) && PassedOver(command, c, from, to)
  }

  /** What ran k-th is entry i, after what ran before it. */
  predicate RanAs(command: seq<Entry>, system: System, ran: seq<Done>, k: nat, i: nat) {
    k < |ran| && i < |command| && ran[k] == Done(command[i].pipeline, system(ran[..k], command[i].pipeline))
  }

  /**
   `ran` are the pipelines of the entries at[0] < at[1] < ... of the first n, the first
   entry's among them. Behind each one, unless it ends the shell, entries are passed over
   until the operator in front of one asks for it.
   */
  ghost predicate Follows(command: seq<Entry>, n: nat, system: System, ran: seq<Done>, at: seq<nat>) {
    && 1 <= n <= |command| && |at| == |ran| >= 1 && at[0] == 0 && at[|at| - 1] < n
    && (forall k :: 0 <= k < |at| ==> RanAs(command, system, ran, k, at[k]))
    && (forall k {:trigger GoesOn(command, ran[k].context, at[k], at[k + 1])} :: 0 <= k < |at| - 1 ==>
          GoesOn(command, ran[k].context, at[k], at[k + 1]))
    && PassedOver(command, ran[|ran| - 1].context, at[|at| - 1], n)
  }

  /** Pipelines run as the operators ask, and the status is that of the last one run. */
  lemma {:induction false} EvalFollows(command: seq<Entry>, n: nat, system: System) returns (at: seq<nat>)
    requires 1 <= n <= |command|
    ensures var o := Eval(system, [], Tree(command, n));
            |o.ran| >= 1 && Follows(command, n, system, o.ran, at) && o.context == o.ran[|o.ran| - 1].context
    decreases n
  {
    hide *;
    if n == 1 {
      at := FirstRuns(command, system);
    } else {
      at := EvalFollows(command, n - 1, system);
      var l := Eval(system, [], Tree(command, n - 1));
      EvalNext(command, n, system);
      if !l.context.terminate && Asked(command[n - 2].next, l.context.exitCode) {
        NextRuns(command, n, system, l.ran, at);
        at := at + [n - 1];
      } else {
        NextPassed(command, n, system, l.ran, at);
      }
    }
  }

  lemma EvalNext(command: seq<Entry>, n: nat, system: System)
    requires 2 <= n <= |command|
    ensures var l, p := Eval(system, [], Tree(command, n - 1)), command[n - 1].pipeline;
            Eval(system, [], Tree(command, n))
            == if !l.context.terminate && Asked(command[n - 2].next, l.context.exitCode)
               then Outcome(system(l.ran, p), l.ran + [Done(p, system(l.ran, p))]) else l
  {
  }

  lemma FirstRuns(command: seq<Entry>, system: System) returns (at: seq<nat>)
    requires command != []
    ensures var o := Eval(system, [], Tree(command, 1));
            |o.ran| == 1 && Follows(command, 1, system, o.ran, at) && o.context == o.ran[0].context
  {
    at := [0];
    assert Eval(system, [], Tree(command, 1)).ran[..0] == [];
  }

  lemma NextPassed(command: seq<Entry>, n: nat, system: System, ran: seq<Done>, at: seq<nat>)
    requires 2 <= n <= |command| && |ran| >= 1 && Follows(command, n - 1, system, ran, at)
    requires var c := ran[|ran| - 1].context; c.terminate || !Asked(command[n - 2].next, c.exitCode)
    ensures Follows(command, n, system, ran, at)
  {
  }

  lemma NextRuns(command: seq<Entry>, n: nat, system: System, ran: seq<Done>, at: seq<nat>)
    requires 2 <= n <= |command| && |ran| >= 1 && Follows(command, n - 1, system, ran, at)
    requires var c := ran[|ran| - 1].context; !c.terminate && Asked(command[n - 2].next, c.exitCode)
    ensures var p := command[n - 1].pipeline; Follows(command, n, system, ran + [Done(p, system(ran, p))], at + [n - 1])
  {
    var p := command[n - 1].pipeline;
    var ran', at' := ran + [Done(p, system(ran, p))], at + [n - 1];
    forall k | 0 <= k < |at'| ensures RanAs(command, system, ran', k, at'[k]) {
      assert ran'[..k] == ran[..k];
      if k < |at| { assert RanAs(command, system, ran, k, at[k]); } else { assert ran[..k] == ran; }
    }
    forall k | 0 <= k < |at'| - 1 ensures GoesOn(command, ran'[k].context, at'[k], at'[k + 1]) {
      if k < |at| - 1 { assert GoesOn(command, ran[k].context, at[k], at[k + 1]); }
    }
  }

  // ---------------------------------------------------------------- the loop

  const RUN_AND_CHAIN: bv8 := 0
  const AND_CHAIN_FAILED: bv8 := 1
  const CAUGHT_OR_ONLY: bv8 := 8
  const EXEC_AFTER_OR: bv8 := 9

  /** What the mode says after the operator behind an entry, in terms of the status so far. */
  function Mode(exitCode: int, next: Operator): bv8 {
    if exitCode == 0 then (if next == Or then CAUGHT_OR_ONLY else RUN_AND_CHAIN)
    else if next == Or then EXEC_AFTER_OR
    else AND_CHAIN_FAILED
  }

  /**
   command_exec, with the pipelines it has run. It runs what the standard says, in that
   order, and ends with that status, whatever the pipelines return.
   */
  method CommandExec(command: seq<Entry>, system: System) returns (context: Context, ran: seq<Done>)
    ensures command == [] ==> context == Context(0, false) && ran == []
    ensures command != [] ==> Outcome(context, ran) == Eval(system, [], Tree(command, Length(command)))
  {
    context, ran := Context(0, false), [];
    if |command| == 0 {
      return;
    }
    var mode := RUN_AND_CHAIN;
    var i := 0;
    while i < |command|
      invariant i <= |command| && i <= Length(command) && (i > 0 ==> command[i - 1].next != Null)
      invariant i == 0 ==> mode == RUN_AND_CHAIN && context == Context(0, false) && ran == []
      invariant i > 0 ==> Outcome(context, ran) == Eval(system, [], Tree(command, i)) && !context.terminate
      invariant i > 0 ==> mode == Mode(context.exitCode, command[i - 1].next)
    {
      var entry := command[i];
      NotYetNull(command, i);
      if mode == RUN_AND_CHAIN {
        context := system(ran, entry.pipeline);
        ran := ran + [Done(entry.pipeline, context)];
        if context.terminate {
          Terminated(command, system, i + 1, Outcome(context, ran));
          return;
        }
      } else if mode == EXEC_AFTER_OR {
        context := system(ran, entry.pipeline);
        ran := ran + [Done(entry.pipeline, context)];
        if context.terminate {
          Terminated(command, system, i + 1, Outcome(context, ran));
          return;
        }
        mode := RUN_AND_CHAIN;
      }
      assert Outcome(context, ran) == Eval(system, [], Tree(command, i + 1));
      if context.exitCode != 0 {
        mode := AND_CHAIN_FAILED;
      }
      match entry.next {
        case And =>
          if mode == CAUGHT_OR_ONLY {
            mode := RUN_AND_CHAIN;
          }
        case Or =>
          mode := mode | CAUGHT_OR_ONLY;
        case Null =>
          LengthIs(command, i + 1);
          return;
      }
      i := i + 1;
    }
  }

  /** All entries so far had an operator, so the list goes on. */
  lemma NotYetNull(command: seq<Entry>, i: nat)
    requires i < |command| && i <= Length(command) && (i > 0 ==> command[i - 1].next != Null)
    ensures i < Length(command)
  {
  }

  lemma LengthIs(command: seq<Entry>, n: nat)
    requires 1 <= n <= |command| && n <= Length(command) && command[n - 1].next == Null
    ensures Length(command) == n
  {
  }

  /** Nothing runs behind a pipeline that ends the shell. */
  lemma {:induction false} TerminatedEval(command: seq<Entry>, system: System, n: nat, m: nat, o: Outcome)
    requires 1 <= n <= m <= |command| && Eval(system, [], Tree(command, n)) == o && o.context.terminate
    ensures Eval(system, [], Tree(command, m)) == o
    decreases m
  {
    if n < m {
      TerminatedEval(command, system, n, m - 1, o);
    }
  }

  lemma Terminated(command: seq<Entry>, system: System, n: nat, o: Outcome)
    requires 1 <= n <= Length(command) && Eval(system, [], Tree(command, n)) == o && o.context.terminate
    ensures Eval(system, [], Tree(command, Length(command))) == o
  {
    TerminatedEval(command, system, n, Length(command), o);
  }
}
