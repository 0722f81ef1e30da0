/**
 What slicing makes of any token list, well-formed or not: entries between && and ||,
 programs between |, and of a program the words before its first redirection and the
 token behind that. What else stands in a program is dropped, and so is a last pipe.
 */
module ShellSplits {
  import opened ShellCommand
  import opened ShellEvaluator
  import opened ShellFaults

  /** The first token of a kind among from..until, or `until`. */
  function First(tokens: seq<Token>, from: nat, until: nat, wanted: Kind -> bool): (k: nat)
    requires from <= until <= |tokens|
    ensures from <= k <= until && (k < until ==> wanted(tokens[k].kind)) && forall i :: from <= i < k ==> !wanted(tokens[i].kind)
    decreases until - from
  {
    if from == until || wanted(tokens[from].kind) then from else First(tokens, from + 1, until, wanted)
  }

  function Values(tokens: seq<Token>): (r: seq<string>)
    ensures |r| == |tokens| && forall i :: 0 <= i < |r| ==> r[i] == tokens[i].value
  {
    seq(|tokens|, i requires 0 <= i < |tokens| => tokens[i].value)
  }

  function ProgramAt(tokens: seq<Token>, from: nat, until: nat): Program
    requires from <= until <= |tokens|
  {
    var k := First(tokens, from, until, IsRedirection);
    if k < until && k + 1 < |tokens| then Program(Values(tokens[from..k]), tokens[k].kind == Append, Some(tokens[k + 1].value))
    else Program(Values(tokens[from..k]), false, None)
  }

  predicate IsPipe(kind: Kind) { kind == Pipe }

  function PipelineAt(tokens: seq<Token>, from: nat, until: nat): seq<Program>
    requires from <= until <= |tokens|
    decreases until - from
  {
    if from == until then []
    else
      var p := First(tokens, from, until, IsPipe);
      if p == until then [ProgramAt(tokens, from, until)] else [ProgramAt(tokens, from, p)] + PipelineAt(tokens, p + 1, until)
  }

  function EntriesAt(tokens: seq<Token>, from: nat): seq<Entry>
    requires from <= |tokens|
    decreases |tokens| - from
  {
    var n := |tokens|;
    if from == n then []
    else
      var l := First(tokens, from, n, IsLogical);
      if l < n then
        [Entry(PipelineAt(tokens, from, l), if tokens[l].kind == LogicalAnd then And else Or)] + EntriesAt(tokens, l + 1)
      else [Entry(PipelineAt(tokens, from, if tokens[n - 1].kind == Background then n - 1 else n), Null)]
  }

  // ---------------------------------------------------------------- one program

  lemma {:induction false} ArgvIs(tokens: seq<Token>, left: nat, until: nat)
    requires left <= until <= |tokens| && until > 0
    ensures Argv(tokens, left, until - 1) == Ok(Values(tokens[left..until]))
    decreases until - left
  {
    if left < until {
      ArgvIs(tokens, left + 1, until);
      assert Values(tokens[left..until]) == [tokens[left].value] + Values(tokens[left + 1..until]);
    } else {
      assert Values(tokens[left..until]) == [];
    }
  }

  lemma {:induction false} ProgramIs(tokens: seq<Token>, left: nat, until: nat, i: nat)
    requires left <= i <= until <= |tokens| && until > 0 && forall k :: left <= k < i ==> !IsRedirection(tokens[k].kind)
    requires MakeProgram(tokens, left, until - 1, i).Ok? && (i == 0 ==> !IsRedirection(tokens[0].kind))
    ensures MakeProgram(tokens, left, until - 1, i) == Ok(ProgramAt(tokens, left, until))
    decreases until - i
  {
    hide Argv;
    if i == until {
      ArgvIs(tokens, left, until);
      FirstIs(tokens, left, until, IsRedirection, until);
    } else if IsRedirection(tokens[i].kind) {
      ArgvIs(tokens, left, i);
      FirstIs(tokens, left, until, IsRedirection, i);
    } else {
      ProgramIs(tokens, left, until, i + 1);
    }
  }

  lemma {:induction false} FirstIs(tokens: seq<Token>, from: nat, until: nat, wanted: Kind -> bool, k: nat)
    requires from <= k <= until <= |tokens| && (k < until ==> wanted(tokens[k].kind)) && forall i :: from <= i < k ==> !wanted(tokens[i].kind)
    ensures First(tokens, from, until, wanted) == k
    decreases k - from
  {
    if from < k {
      FirstIs(tokens, from + 1, until, wanted, k);
    }
  }

  // ---------------------------------------------------------------- a pipeline and a line

  lemma {:induction false} PipelineIs(tokens: seq<Token>, left: nat, until: nat, i: nat)
    requires left <= i <= until <= |tokens| && until > 0 && (i == until ==> left == until)
    requires left == 0 ==> !IsRedirection(tokens[0].kind) && tokens[0].kind != Pipe
    requires forall k :: left <= k < i ==> tokens[k].kind != Pipe
    requires MakePipeline(tokens, left, until - 1, i).Ok?
    ensures MakePipeline(tokens, left, until - 1, i) == Ok(PipelineAt(tokens, left, until))
    decreases until - i
  {
    hide MakeProgram, ProgramAt;
    if i < until {
      if tokens[i].kind == Pipe {
        FirstIs(tokens, left, until, IsPipe, i);
        ProgramIs(tokens, left, i, left);
        PipelineIs(tokens, i + 1, until, i + 1);
      } else if i == until - 1 {
        FirstIs(tokens, left, until, IsPipe, until);
        ProgramIs(tokens, left, until, left);
      } else {
        PipelineIs(tokens, left, until, i + 1);
      }
    }
  }

  lemma {:induction false} EntriesAre(tokens: seq<Token>, left: nat, i: nat)
    requires left <= i <= |tokens| && (i == |tokens| ==> i == left)
    requires left == 0 && tokens != [] ==> !IsRedirection(tokens[0].kind) && !Splits(tokens[0].kind) && !(tokens[0].kind == Background && |tokens| == 1)
    requires forall k :: left <= k < i ==> !IsLogical(tokens[k].kind)
    requires MakeEntries(tokens, left, i).Ok?
    ensures MakeEntries(tokens, left, i) == Ok(EntriesAt(tokens, left))
    decreases |tokens| - i
  {
    hide MakePipeline, PipelineAt;
    var n := |tokens|;
    if i < n {
      if IsLogical(tokens[i].kind) {
        FirstIs(tokens, left, n, IsLogical, i);
        PipelineIs(tokens, left, i, left);
        EntriesAre(tokens, i + 1, i + 1);
      } else if i == n - 1 {
        FirstIs(tokens, left, n, IsLogical, n);
        PipelineIs(tokens, left, if tokens[i].kind == Background then n - 1 else n, left);
      } else {
        EntriesAre(tokens, left, i + 1);
      }
    }
  }

  // ---------------------------------------------------------------- a line that begins with a pipe

  /** The first redirection of the whole line, wherever it is, is taken for that of the program in front of the pipe. */
  lemma {:induction false} PipeProgramIs(tokens: seq<Token>, i: nat)
    requires 0 < i <= |tokens| <= SIZE_MAX && forall k :: 0 <= k < i ==> !IsRedirection(tokens[k].kind)
    requires MakeProgram(tokens, 0, SIZE_MAX, i).Ok?
    ensures MakeProgram(tokens, 0, SIZE_MAX, i) == Ok(ProgramAt(tokens, 0, |tokens|))
    decreases |tokens| - i
  {
    hide Argv;
    ArgvOutside(tokens, 0);
    if i < |tokens| {
      if IsRedirection(tokens[i].kind) {
        ArgvIs(tokens, 0, i);
        FirstIs(tokens, 0, |tokens|, IsRedirection, i);
      } else {
        PipeProgramIs(tokens, i + 1);
      }
    }
  }

  /** Its entries: a program that takes the line from its beginning, and then as ever. */
  function PipeFirst(tokens: seq<Token>): seq<Entry>
    requires tokens != []
  {
    var n, l := |tokens|, First(tokens, 1, |tokens|, IsLogical);
    var head := [ProgramAt(tokens, 0, n)];
    if l < n then
      [Entry(head + PipelineAt(tokens, 1, l), if tokens[l].kind == LogicalAnd then And else Or)] + EntriesAt(tokens, l + 1)
    else [Entry(head + PipelineAt(tokens, 1, if n > 1 && tokens[n - 1].kind == Background then n - 1 else n), Null)]
  }

  lemma PipePipelineIs(tokens: seq<Token>, until: nat)
    requires 0 < until <= |tokens| <= SIZE_MAX && tokens[0].kind == Pipe && MakePipeline(tokens, 0, until - 1, 0).Ok?
    ensures MakePipeline(tokens, 0, until - 1, 0) == Ok([ProgramAt(tokens, 0, |tokens|)] + PipelineAt(tokens, 1, until))
  {
    hide MakeProgram, ProgramAt, PipelineAt;
    PipeProgramStarts(tokens);
    PipelineIs(tokens, 1, until, 1);
  }

  lemma PipeProgramStarts(tokens: seq<Token>)
    requires 0 < |tokens| <= SIZE_MAX && tokens[0].kind == Pipe && MakeProgram(tokens, 0, SIZE_MAX, 0).Ok?
    ensures MakeProgram(tokens, 0, SIZE_MAX, 0) == Ok(ProgramAt(tokens, 0, |tokens|))
  {
    PipeProgramIs(tokens, 1);
  }

  lemma {:induction false} PipeEntriesAre(tokens: seq<Token>, i: nat)
    requires i < |tokens| <= SIZE_MAX && tokens[0].kind == Pipe
    requires (forall k :: 0 <= k < i ==> !IsLogical(tokens[k].kind)) && MakeEntries(tokens, 0, i).Ok?
    ensures MakeEntries(tokens, 0, i) == Ok(PipeFirst(tokens))
    decreases |tokens| - i
  {
    hide MakePipeline, PipelineAt, ProgramAt, EntriesAt;
    var n := |tokens|;
    if IsLogical(tokens[i].kind) {
      FirstIs(tokens, 1, n, IsLogical, i);
      PipePipelineIs(tokens, i);
      EntriesAre(tokens, i + 1, i + 1);
    } else if i == n - 1 {
      FirstIs(tokens, 1, n, IsLogical, n);
      PipePipelineIs(tokens, if tokens[i].kind == Background then n - 1 else n);
    } else {
      PipeEntriesAre(tokens, i + 1);
    }
  }

  /**
   Every token list that does not make the program read outside it is sliced into the
   entries, programs and words it is split into by its operators, but for a pipe at its
   beginning, in front of which a program reaches over the whole line.
   */
  lemma SliceSplits(tokens: seq<Token>)
    requires |tokens| <= SIZE_MAX && !ReadsOutside(tokens)
    ensures Slice(tokens) == Ok(Command(if tokens != [] && tokens[0].kind == Pipe then PipeFirst(tokens) else EntriesAt(tokens, 0),
                                        tokens != [] && tokens[|tokens| - 1].kind == Background))
  {
    hide MakeEntries, EntriesAt, NoFileName, PipeFirst;
    SliceFaultsExactly(tokens);
    if tokens != [] && tokens[0].kind == Pipe { PipeEntriesAre(tokens, 0); } else { EntriesAre(tokens, 0, 0); }
  }
}
