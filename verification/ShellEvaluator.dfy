/**
 From tokens to a command: the index slicing of evaluate. Indices are of type size_t, so
 0 - 1 is the largest of them; a read outside the token list is reported as a fault,
 where the program has undefined behaviour. `ShellFaults` says for which lists.
 */
module ShellEvaluator {
  import opened ShellCommand

  datatype Kind = Word | Background | Pipe | LogicalAnd | LogicalOr | Write | Append

  datatype Token = Token(kind: Kind, value: string)

  datatype Result<T> = Fault | Ok(value: T)

  datatype Command = Command(entries: seq<Entry>, background: bool)

  const SIZE_MAX := 0xffff_ffff_ffff_ffff

  /** i - 1 */
  function Before(i: nat): nat { if i == 0 then SIZE_MAX else i - 1 }

  predicate IsLogical(kind: Kind) { kind == LogicalAnd || kind == LogicalOr }

  predicate IsRedirection(kind: Kind) { kind == Write || kind == Append }

  // ---------------------------------------------------------------- as functions

  function Prefixed<T>(xs: seq<T>, r: Result<seq<T>>): Result<seq<T>> {
    match r
    case Fault => Fault
    case Ok(rest) => Ok(xs + rest)
  }

  lemma PrefixedTwice<T>(xs: seq<T>, ys: seq<T>, r: Result<seq<T>>)
    ensures Prefixed(xs + ys, r) == Prefixed(xs, Prefixed(ys, r)) && Prefixed([], r) == r
    ensures Prefixed(xs, Ok(ys)) == Ok(xs + ys)
  {
    if r.Ok? {
      assert xs + ys + r.value == xs + (ys + r.value) && [] + r.value == r.value;
    }
  }

  /** The values of the tokens left..right; none if right is left - 1. */
  function Argv(tokens: seq<Token>, left: nat, right: nat): Result<seq<string>>
    decreases |tokens| - left
  {
    if left > right then Ok([])
    else if left >= |tokens| then Fault
    else Prefixed([tokens[left].value], Argv(tokens, left + 1, right))
  }

  /** init_program: from i on looks for a redirection. */
  function MakeProgram(tokens: seq<Token>, left: nat, right: nat, i: nat): Result<Program>
    decreases |tokens| - i
  {
    if i > right then
      match Argv(tokens, left, right)
      case Fault => Fault
      case Ok(argv) => Ok(Program(argv, false, None))
    else if i >= |tokens| then Fault
    else if IsRedirection(tokens[i].kind) then
      match Argv(tokens, left, Before(i))
      case Fault => Fault
      case Ok(argv) => if i + 1 >= |tokens| then Fault else Ok(Program(argv, tokens[i].kind == Append, Some(tokens[i + 1].value)))
    else MakeProgram(tokens, left, right, i + 1)
  }

  /** init_pipe_list: from i on; the next program begins at left. */
  function MakePipeline(tokens: seq<Token>, left: nat, right: nat, i: nat): Result<seq<Program>>
    decreases |tokens| - i
  {
    if i > right then Ok([])
    else if i >= |tokens| then Fault
    else if tokens[i].kind == Pipe then
      match MakeProgram(tokens, left, Before(i), left)
      case Fault => Fault
      case Ok(program) => Prefixed([program], MakePipeline(tokens, i + 1, right, i + 1))
    else if i == right then
      match MakeProgram(tokens, left, i, left)
      case Fault => Fault
      case Ok(program) => Ok([program])
    else MakePipeline(tokens, left, right, i + 1)
  }

  /** init_command_entry */
  function MakeEntry(tokens: seq<Token>, left: nat, right: nat, last: bool): Result<Entry> {
    match MakePipeline(tokens, left, if last then right else Before(right), left)
    case Fault => Fault
    case Ok(pipeline) =>
      if last then Ok(Entry(pipeline, Null))
      else if right >= |tokens| then Fault
      else Ok(Entry(pipeline, if tokens[right].kind == LogicalAnd then And else Or))
  }

  /** The entries of evaluate: from i on; the next one begins at left. */
  function MakeEntries(tokens: seq<Token>, left: nat, i: nat): Result<seq<Entry>>
    decreases |tokens| - i
  {
    if i >= |tokens| then Ok([])
    else if IsLogical(tokens[i].kind) then
      match MakeEntry(tokens, left, i, false)
      case Fault => Fault
      case Ok(entry) => Prefixed([entry], MakeEntries(tokens, i + 1, i + 1))
    else if i == |tokens| - 1 then
      match MakeEntry(tokens, left, if tokens[i].kind == Background then Before(i) else i, true)
      case Fault => Fault
      case Ok(entry) => Ok([entry])
    else MakeEntries(tokens, left, i + 1)
  }

  /** The command the tokens of a line make. */
  function Slice(tokens: seq<Token>): Result<Command> {
    match MakeEntries(tokens, 0, 0)
    case Fault => Fault
    case Ok(entries) => Ok(Command(entries, tokens != [] && tokens[|tokens| - 1].kind == Background))
  }

  // ---------------------------------------------------------------- as the program does it

  method InitArgv(tokens: seq<Token>, left: nat, right: nat) returns (r: Result<seq<string>>)
    ensures r == Argv(tokens, left, right)
  {
    var argv: seq<string> := [];
    var i: nat := left;
    PrefixedTwice(argv, argv, Argv(tokens, left, right));
    while i <= right
      invariant Argv(tokens, left, right) == Prefixed(argv, Argv(tokens, i, right))
      decreases |tokens| - i
    {
      if i >= |tokens| {
        return Fault;
      }
      PrefixedTwice(argv, [tokens[i].value], Argv(tokens, i + 1, right));
      argv := argv + [tokens[i].value];
      i := i + 1;
    }
    assert argv + [] == argv;
    return Ok(argv);
  }

  method InitProgram(tokens: seq<Token>, left: nat, right: nat) returns (r: Result<Program>)
    ensures r == MakeProgram(tokens, left, right, left)
  {
    var i := left;
    while i <= right
      invariant MakeProgram(tokens, left, right, i) == MakeProgram(tokens, left, right, left)
      decreases |tokens| - i
    {
      if i >= |tokens| {
        return Fault;
      }
      if IsRedirection(tokens[i].kind) {
        var argv := InitArgv(tokens, left, Before(i));
        if argv.Fault? || i + 1 >= |tokens| {
          return Fault;
        }
        return Ok(Program(argv.value, tokens[i].kind == Append, Some(tokens[i + 1].value)));
      }
      i := i + 1;
    }
    var argv := InitArgv(tokens, left, right);
    if argv.Fault? {
      return Fault;
    }
    return Ok(Program(argv.value, false, None));
  }

  method InitPipeList(tokens: seq<Token>, left: nat, right: nat) returns (r: Result<seq<Program>>)
    ensures r == MakePipeline(tokens, left, right, left)
  {
    hide Argv, MakeProgram;
    var pipeline: seq<Program> := [];
    var programLeft: nat := left;
    var i: nat := left;
    PrefixedTwice(pipeline, pipeline, MakePipeline(tokens, left, right, left));
    while i <= right
      invariant MakePipeline(tokens, left, right, left) == Prefixed(pipeline, MakePipeline(tokens, programLeft, right, i))
      decreases |tokens| - i
    {
      if i >= |tokens| {
        return Fault;
      }
      if tokens[i].kind == Pipe {
        var program := InitProgram(tokens, programLeft, Before(i));
        if program.Fault? {
          return Fault;
        }
        PrefixedTwice(pipeline, [program.value], MakePipeline(tokens, i + 1, right, i + 1));
        pipeline := pipeline + [program.value];
        programLeft := i + 1;
      } else if i == right {
        var program := InitProgram(tokens, programLeft, i);
        if program.Fault? {
          return Fault;
        }
        return Ok(pipeline + [program.value]);
      }
      i := i + 1;
    }
    assert pipeline + [] == pipeline;
    return Ok(pipeline);
  }

  method InitCommandEntry(tokens: seq<Token>, left: nat, right: nat, isTerminate: bool) returns (r: Result<Entry>)
    ensures r == MakeEntry(tokens, left, right, isTerminate)
  {
    if isTerminate {
      var pipeline := InitPipeList(tokens, left, right);
      return if pipeline.Fault? then Fault else Ok(Entry(pipeline.value, Null));
    }
    var pipeline := InitPipeList(tokens, left, Before(right));
    if pipeline.Fault? || right >= |tokens| {
      return Fault;
    }
    return Ok(Entry(pipeline.value, if tokens[right].kind == LogicalAnd then And else Or));
  }

  /** The slicing part of evaluate. */
  method BuildCommand(tokens: seq<Token>) returns (r: Result<Command>)
    ensures r == Slice(tokens)
  {
    hide MakeEntry;
    var entries: seq<Entry> := [];
    var background := false;
    var left: nat, i: nat := 0, 0;
    PrefixedTwice(entries, entries, MakeEntries(tokens, 0, 0));
    while i < |tokens|
      invariant i <= |tokens|
      invariant MakeEntries(tokens, 0, 0) == Prefixed(entries, MakeEntries(tokens, left, i))
      invariant background == (i == |tokens| && tokens != [] && tokens[i - 1].kind == Background)
    {
      if IsLogical(tokens[i].kind) {
        var entry := InitCommandEntry(tokens, left, i, false);
        if entry.Fault? {
          return Fault;
        }
        PrefixedTwice(entries, [entry.value], MakeEntries(tokens, i + 1, i + 1));
        entries := entries + [entry.value];
        left := i + 1;
      } else if i == |tokens| - 1 {
        background := tokens[i].kind == Background;
        var entry := InitCommandEntry(tokens, left, if background then Before(i) else i, true);
        if entry.Fault? {
          return Fault;
        }
        PrefixedTwice(entries, [entry.value], Ok([]));
        assert [entry.value] + [] == [entry.value];
        assert MakeEntries(tokens, left, i) == Ok([entry.value]);
        entries := entries + [entry.value];
      }
      i := i + 1;
    }
    assert entries + [] == entries;
    return Ok(Command(entries, background));
  }

  // ---------------------------------------------------------------- the tokens of a command

  function Words(argv: seq<string>): (r: seq<Token>)
    ensures |r| == |argv| && forall i :: 0 <= i < |r| ==> r[i] == Token(Word, argv[i])
  {
    seq(|argv|, i requires 0 <= i < |argv| => Token(Word, argv[i]))
  }

  function ProgramTokens(p: Program): seq<Token> {
    Words(p.argv) +
    match p.output
    case None => []
    case Some(file) => [if p.append then Token(Append, ">>") else Token(Write, ">"), Token(Word, file)]
  }

  function PipelineTokens(ps: seq<Program>): seq<Token>
    requires ps != []
  {
    if |ps| == 1 then ProgramTokens(ps[0])
    else ProgramTokens(ps[0]) + [Token(Pipe, "|")] + PipelineTokens(ps[1..])
  }

  function EntriesTokens(entries: seq<Entry>): seq<Token>
    requires entries != [] && forall i :: 0 <= i < |entries| ==> entries[i].pipeline != []
  {
    var e := entries[0];
    if |entries| == 1 then PipelineTokens(e.pipeline)
    else PipelineTokens(e.pipeline) + [if e.next == And then Token(LogicalAnd, "&&") else Token(LogicalOr, "||")] + EntriesTokens(entries[1..])
  }

  predicate ProgramOk(p: Program) { p.argv != [] && (p.output == None ==> !p.append) }

  predicate PipelineOk(ps: seq<Program>) { ps != [] && forall i :: 0 <= i < |ps| ==> ProgramOk(ps[i]) }

  /** Operators between the entries and none behind the last. */
  predicate EntriesOk(entries: seq<Entry>) {
    && entries != []
    && (forall i :: 0 <= i < |entries| ==> PipelineOk(entries[i].pipeline))
    && (forall i :: 0 <= i < |entries| ==> (entries[i].next == Null <==> i == |entries| - 1))
  }

  function CommandTokens(c: Command): seq<Token>
    requires EntriesOk(c.entries)
  {
    EntriesTokens(c.entries) + if c.background then [Token(Background, "&")] else []
  }

  // ---------------------------------------------------------------- slicing them gives the command back

  /** part stands in tokens from left on. */
  predicate Stands(tokens: seq<Token>, left: nat, part: seq<Token>) {
    left + |part| <= |tokens| && tokens[left..left + |part|] == part
  }

  lemma StandsAt(tokens: seq<Token>, left: nat, part: seq<Token>)
    requires Stands(tokens, left, part)
    ensures forall i :: 0 <= i < |part| ==> tokens[left + i] == part[i]
  {
    forall i | 0 <= i < |part| ensures tokens[left + i] == part[i] {
      assert tokens[left..left + |part|][i] == part[i];
    }
  }

  lemma StandsSplit(tokens: seq<Token>, left: nat, a: seq<Token>, b: seq<Token>)
    requires Stands(tokens, left, a + b)
    ensures Stands(tokens, left, a) && Stands(tokens, left + |a|, b)
  {
    assert (a + b)[..|a|] == a && (a + b)[|a|..] == b;
    assert tokens[left..left + |a|] == tokens[left..left + |a + b|][..|a|];
    assert tokens[left + |a|..left + |a + b|] == tokens[left..left + |a + b|][|a|..];
  }

  lemma {:induction false} ArgvOf(tokens: seq<Token>, left: nat, argv: seq<string>)
    requires Stands(tokens, left, Words(argv)) && left + |argv| > 0
    ensures Argv(tokens, left, left + |argv| - 1) == Ok(argv)
    decreases |argv|
  {
    if argv != [] {
      StandsAt(tokens, left, Words(argv));
      assert Words(argv) == [Token(Word, argv[0])] + Words(argv[1..]);
      StandsSplit(tokens, left, [Token(Word, argv[0])], Words(argv[1..]));
      ArgvOf(tokens, left + 1, argv[1..]);
      assert argv == [argv[0]] + argv[1..];
    }
  }

  lemma {:induction false} NoRedirection(tokens: seq<Token>, left: nat, right: nat, i: nat, j: nat)
    requires i <= j <= right + 1 && j <= |tokens| && forall k :: i <= k < j ==> !IsRedirection(tokens[k].kind)
    ensures MakeProgram(tokens, left, right, i) == MakeProgram(tokens, left, right, j)
    decreases j - i
  {
    if i < j {
      NoRedirection(tokens, left, right, i + 1, j);
    }
  }

  lemma ProgramOf(tokens: seq<Token>, left: nat, p: Program)
    requires ProgramOk(p) && Stands(tokens, left, ProgramTokens(p))
    ensures MakeProgram(tokens, left, left + |ProgramTokens(p)| - 1, left) == Ok(p)
  {
    hide Argv;
    var all, words := ProgramTokens(p), Words(p.argv);
    StandsAt(tokens, left, all);
    assert all == words + all[|words|..];
    StandsSplit(tokens, left, words, all[|words|..]);
    ArgvOf(tokens, left, p.argv);
    var j := left + |words|;
    forall k | left <= k < j ensures !IsRedirection(tokens[k].kind) {
      assert tokens[left + (k - left)] == all[k - left];
    }
    NoRedirection(tokens, left, left + |all| - 1, left, j);
    if p.output != None {
      assert tokens[left + |words|] == all[|words|] && tokens[left + (|words| + 1)] == all[|words| + 1];
    }
  }

  lemma {:induction false} NoPipe(tokens: seq<Token>, left: nat, right: nat, i: nat, j: nat)
    requires i <= j <= right && j <= |tokens| && forall k :: i <= k < j ==> tokens[k].kind != Pipe
    ensures MakePipeline(tokens, left, right, i) == MakePipeline(tokens, left, right, j)
    decreases j - i
  {
    if i < j {
      NoPipe(tokens, left, right, i + 1, j);
    }
  }

  lemma ProgramKinds(p: Program)
    requires ProgramOk(p)
    ensures |ProgramTokens(p)| >= 1
    ensures forall k :: 0 <= k < |ProgramTokens(p)| ==>
              ProgramTokens(p)[k].kind != Pipe && !IsLogical(ProgramTokens(p)[k].kind) && ProgramTokens(p)[k].kind != Background
  {
  }

  lemma {:induction false} PipelineOf(tokens: seq<Token>, left: nat, ps: seq<Program>)
    requires PipelineOk(ps) && Stands(tokens, left, PipelineTokens(ps))
    ensures |PipelineTokens(ps)| >= 1
    ensures MakePipeline(tokens, left, left + |PipelineTokens(ps)| - 1, left) == Ok(ps)
    decreases |ps|
  {
    hide MakeProgram, ProgramTokens, Stands;
    var all, first := PipelineTokens(ps), ProgramTokens(ps[0]);
    ProgramKinds(ps[0]);
    InTokens(tokens, left, all);
    if |ps| == 1 {
      ProgramOf(tokens, left, ps[0]);
      StandsAt(tokens, left, all);
      ShiftKinds(tokens, left, first);
      NoPipe(tokens, left, left + |all| - 1, left, left + |all| - 1);
      assert tokens[left + (|all| - 1)] == all[|all| - 1];
      assert ps == [ps[0]];
    } else {
      var pipe, rest := [Token(Pipe, "|")], PipelineTokens(ps[1..]);
      var i := left + |first|;
      StandsSplit(tokens, left, first + pipe, rest);
      StandsSplit(tokens, left, first, pipe);
      StandsAt(tokens, left, first);
      StandsAt(tokens, i, pipe);
      ShiftKinds(tokens, left, first);
      assert tokens[i + 0] == pipe[0];
      ProgramOf(tokens, left, ps[0]);
      PipelineOf(tokens, i + 1, ps[1..]);
      NoPipe(tokens, left, left + |all| - 1, left, i);
      assert ps == [ps[0]] + ps[1..];
    }
  }

  lemma InTokens(tokens: seq<Token>, left: nat, part: seq<Token>)
    requires Stands(tokens, left, part)
    ensures left + |part| <= |tokens|
  {
  }

  /** The kinds of a part, by their place in the list. */
  lemma ShiftKinds(tokens: seq<Token>, left: nat, part: seq<Token>)
    requires left + |part| <= |tokens| && forall i :: 0 <= i < |part| ==> tokens[left + i] == part[i]
    ensures forall k :: left <= k < left + |part| ==> tokens[k].kind == part[k - left].kind
  {
    forall k | left <= k < left + |part| ensures tokens[k].kind == part[k - left].kind {
      assert tokens[left + (k - left)] == part[k - left];
    }
  }

  lemma {:induction false} PipelineKinds(ps: seq<Program>)
    requires PipelineOk(ps)
    ensures |PipelineTokens(ps)| >= 1
    ensures forall k :: 0 <= k < |PipelineTokens(ps)| ==>
              !IsLogical(PipelineTokens(ps)[k].kind) && PipelineTokens(ps)[k].kind != Background
    decreases |ps|
  {
    hide ProgramTokens;
    ProgramKinds(ps[0]);
    if |ps| > 1 {
      PipelineKinds(ps[1..]);
    }
  }

  lemma {:induction false} NoLogical(tokens: seq<Token>, left: nat, i: nat, j: nat)
    requires i <= j <= |tokens| - 1 && forall k :: i <= k < j ==> !IsLogical(tokens[k].kind)
    ensures MakeEntries(tokens, left, i) == MakeEntries(tokens, left, j)
    decreases j - i
  {
    if i < j {
      NoLogical(tokens, left, i + 1, j);
    }
  }

  /** The tokens from left on are those of the entries, and perhaps an &. */
  lemma {:induction false} EntriesOf(tokens: seq<Token>, left: nat, entries: seq<Entry>, background: bool)
    requires EntriesOk(entries) && Stands(tokens, left, EntriesTokens(entries))
    requires |tokens| == left + |EntriesTokens(entries)| + if background then 1 else 0
    requires background ==> tokens[|tokens| - 1].kind == Background
    ensures MakeEntries(tokens, left, left) == Ok(entries)
    decreases |entries|
  {
    hide MakePipeline, PipelineTokens, Stands;
    var all, e := EntriesTokens(entries), entries[0];
    var first := PipelineTokens(e.pipeline);
    PipelineKinds(e.pipeline);
    if |entries| == 1 {
      PipelineOf(tokens, left, e.pipeline);
      StandsAt(tokens, left, first);
      ShiftKinds(tokens, left, first);
      NoLogical(tokens, left, left, |tokens| - 1);
      assert entries == [Entry(e.pipeline, Null)];
    } else {
      var operator, rest := [if e.next == And then Token(LogicalAnd, "&&") else Token(LogicalOr, "||")], EntriesTokens(entries[1..]);
      var i := left + |first|;
      StandsSplit(tokens, left, first + operator, rest);
      StandsSplit(tokens, left, first, operator);
      StandsAt(tokens, left, first);
      StandsAt(tokens, i, operator);
      ShiftKinds(tokens, left, first);
      assert tokens[i + 0] == operator[0];
      PipelineOf(tokens, left, e.pipeline);
      EntriesOf(tokens, i + 1, entries[1..], background);
      NoLogical(tokens, left, left, i);
      assert entries == [Entry(e.pipeline, e.next)] + entries[1..];
    }
  }

  /** Slicing the tokens of a command gives the command, and never reads outside the list. */
  lemma SliceTokens(c: Command)
    requires EntriesOk(c.entries)
    ensures Slice(CommandTokens(c)) == Ok(c)
  {
    hide MakeEntries;
    var tokens, entries := CommandTokens(c), EntriesTokens(c.entries);
    assert tokens[..|entries|] == entries;
    EntriesKinds(c.entries);
    EntriesOf(tokens, 0, c.entries, c.background);
    assert !c.background ==> tokens == entries;
  }

  lemma {:induction false} EntriesKinds(entries: seq<Entry>)
    requires EntriesOk(entries)
    ensures |EntriesTokens(entries)| >= 1
    ensures EntriesTokens(entries)[|EntriesTokens(entries)| - 1].kind != Background
    decreases |entries|
  {
    hide PipelineTokens;
    PipelineKinds(entries[0].pipeline);
    if |entries| > 1 {
      EntriesKinds(entries[1..]);
    }
  }
}
