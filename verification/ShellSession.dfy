/**
 The shell as a whole: it reads a line, runs it, and goes on until the input ends or a
 line ends it. The round that the program makes at the end of the input finds no tokens
 and changes nothing; it is left out.
 */
module ShellSession {
  import opened ShellCommand
  import opened ShellEvaluator
  import opened ShellLexer
  import opened ShellQuoting
  import opened ShellRoundTrip

  /** Ended by a line, by the end of the input, or not: reading for ever, or with a bad access. */
  datatype How = ByLine | ByInput | Hangs | Crashes

  /** With the exit code of the shell and all pipelines run, those of lines in the background too. */
  datatype Life = Life(how: How, exitCode: int, ran: seq<Done>)

  /** The system of a line: what its pipelines do depends on the lines before, too. */
  function After(system: System, before: seq<Done>): System { (ran, p) => system(before + ran, p) }

  function CodeAfter(exitCode: int, context: Context): int { if context.exitCode != -1 then context.exitCode else exitCode }

  lemma {:induction false} TokenizeShrinks(s: string)
    requires s != "" && Tokenize(s).Tokens?
    ensures |Tokenize(s).rest| < |s|
    decreases |s|
  {
    hide ReadToken;
    TokenShrinks(s);
    var (step, rest) := ReadToken(s);
    if step.Read? && !step.last {
      if rest == "" { AtEnd(); } else { TokenizeShrinks(rest); }
    }
  }

  lemma TokenShrinks(s: string)
    requires s != ""
    ensures ReadToken(s).0.Read? || ReadToken(s).0.End? ==> |ReadToken(s).1| < |s|
  {
    CommentShrinks(SkipSpaces(s).1);
  }

  lemma {:induction false} CommentShrinks(s: string)
    ensures SkipComment(s).Closed? ==> |SkipComment(s).rest| < |s|
  {
    if s != "" && s[0] != '\n' {
      CommentShrinks(s[1..]);
    }
  }

  lemma AtEnd()
    ensures Tokenize("") == Tokens([], "")
  {
  }

  lemma RestShrinks(s: string)
    requires Tokenize(s).Tokens? && Tokenize(s).rest != ""
    ensures |Tokenize(s).rest| < |s|
  {
    if s == "" { AtEnd(); } else { TokenizeShrinks(s); }
  }

  function Live(input: string, system: System, before: seq<Done>, exitCode: int): Life
    decreases |input|
  {
    match Tokenize(input)
    case Diverges => Life(Hangs, exitCode, before)
    case NullString => Life(Crashes, exitCode, before)
    case Tokens(tokens, rest) =>
      match Evaluated(tokens, After(system, before))
      case Fault => Life(Crashes, exitCode, before)
      case Ok(o) =>
        var code, ran := CodeAfter(exitCode, o.context), before + o.ran;
        if o.context.terminate then Life(ByLine, code, ran)
        else if rest == "" then Life(ByInput, code, ran)
        else
          RestShrinks(input);
          Live(rest, system, ran, code)
  }

  /** main */
  method Shell(stdin: Stdin, system: System) returns (life: Life)
    modifies stdin
    ensures life == Live(old(stdin.rest), system, [], 0)
  {
    hide Tokenize, Evaluated;
    var exitCode: int, ran: seq<Done> := 0, [];
    while true
      invariant Live(stdin.rest, system, ran, exitCode) == Live(old(stdin.rest), system, [], 0)
      decreases |stdin.rest|
    {
      ghost var input := stdin.rest;
      var line := stdin.TokenizeCommand();
      if line.Diverges? {
        return Life(Hangs, exitCode, ran);
      }
      if line.NullString? {
        return Life(Crashes, exitCode, ran);
      }
      var r := Evaluate(line.tokens, After(system, ran));
      if r.Fault? {
        return Life(Crashes, exitCode, ran);
      }
      ran := ran + r.value.ran;
      if r.value.context.exitCode != EXIT_NO_CODE {
        exitCode := r.value.context.exitCode;
      }
      if r.value.context.terminate {
        return Life(ByLine, exitCode, ran);
      }
      if stdin.rest == "" {
        return Life(ByInput, exitCode, ran);
      }
      RestShrinks(input);
    }
  }

  // ---------------------------------------------------------------- lines that do nothing

  /** A line of no tokens changes nothing: the shell is where it would be without it. */
  lemma NoTokens(input: string, rest: string, system: System, before: seq<Done>, exitCode: int)
    requires Tokenize(input) == Tokens([], rest)
    ensures Live(input, system, before, exitCode) == Live(rest, system, before, exitCode)
  {
    hide Tokenize;
    EvaluatedIs([], After(system, before));
    assert before + [] == before;
    if rest == "" { AtEnd(); }
  }

  /** Empty lines, lines of spaces and comments run nothing, have no status and do not end the shell. */
  lemma EmptyLines(w: string, s: string, blanks: nat, system: System, before: seq<Done>, exitCode: int)
    requires '\n' !in w
    ensures Live(Blanks(blanks) + ("\n" + s), system, before, exitCode) == Live(s, system, before, exitCode)
    ensures Live(Blanks(blanks) + ("#" + w + "\n" + s), system, before, exitCode) == Live(s, system, before, exitCode)
  {
    hide Live;
    TokenizeNewline(s);
    TokenizeComment(w, s);
    TokenizeBlanks(blanks, "\n" + s);
    TokenizeBlanks(blanks, "#" + w + "\n" + s);
    hide Tokenize;
    NoTokens(Blanks(blanks) + ("\n" + s), s, system, before, exitCode);
    NoTokens(Blanks(blanks) + ("#" + w + "\n" + s), s, system, before, exitCode);
  }

  // ---------------------------------------------------------------- scripts

  /** Commands on lines of their own. */
  function Script(commands: seq<Command>): string
    requires forall i :: 0 <= i < |commands| ==> EntriesOk(commands[i].entries)
  {
    if commands == [] then "" else PrintCommand(commands[0]) + Script(commands[1..])
  }

  /**
   What a script means: its AND-OR lists run in order, each after all before it. The exit
   code is that of the last one in the foreground that has one; `exit` in the foreground
   ends the script, and nothing else does.
   */
  function RunScript(commands: seq<Command>, system: System, before: seq<Done>, exitCode: int): Life
    requires forall i :: 0 <= i < |commands| ==> EntriesOk(commands[i].entries)
  {
    if commands == [] then Life(ByInput, exitCode, before)
    else
      var o := Eval(system, before, Meaning(commands[0]));
      if commands[0].background then RunScript(commands[1..], system, o.ran, exitCode)
      else if o.context.terminate then Life(ByLine, CodeAfter(exitCode, o.context), o.ran)
      else RunScript(commands[1..], system, o.ran, CodeAfter(exitCode, o.context))
  }

  lemma {:induction false} EvalAfter(system: System, before: seq<Done>, x: seq<Done>, list: AndOr)
    ensures var o, p := Eval(After(system, before), x, list), Eval(system, before + x, list);
            o.context == p.context && before + o.ran == p.ran
    decreases list
  {
    match list
    case Pipeline(p) => RunAfter(system, before, x, p);
    case AndList(left, p) => EvalAfter(system, before, x, left); RunAfter(system, before, Eval(After(system, before), x, left).ran, p);
    case OrList(left, p) => EvalAfter(system, before, x, left); RunAfter(system, before, Eval(After(system, before), x, left).ran, p);
  }

  lemma RunAfter(system: System, before: seq<Done>, x: seq<Done>, pipeline: seq<Program>)
    ensures var o, p := RunPipeline(After(system, before), x, pipeline), RunPipeline(system, before + x, pipeline);
            o.context == p.context && before + o.ran == p.ran
  {
    var done := [Done(pipeline, system(before + x, pipeline))];
    assert before + (x + done) == before + x + done;
  }

  /** The shell runs the text of a script as the script means. */
  lemma {:induction false} ScriptRuns(commands: seq<Command>, system: System, before: seq<Done>, exitCode: int)
    requires forall i :: 0 <= i < |commands| ==> EntriesOk(commands[i].entries) && AllWhole(commands[i])
    ensures Live(Script(commands), system, before, exitCode) == RunScript(commands, system, before, exitCode)
    decreases |commands|
  {
    hide Tokenize, Evaluated, Eval, PrintCommand, Meaning, CommandTokens, AllWhole;
    if commands == [] {
      AtEnd();
      EvaluatedIs([], After(system, before));
      assert before + [] == before;
    } else {
      var c, rest := commands[0], Script(commands[1..]);
      var o := Eval(system, before, Meaning(c));
      OneCommand(c, rest, system, before, exitCode);
      ScriptRuns(commands[1..], system, o.ran, if c.background then exitCode else CodeAfter(exitCode, o.context));
    }
  }

  /** A command at the beginning of the input. */
  lemma OneCommand(c: Command, s: string, system: System, before: seq<Done>, exitCode: int)
    requires EntriesOk(c.entries) && AllWhole(c)
    ensures var o := Eval(system, before, Meaning(c));
            Live(PrintCommand(c) + s, system, before, exitCode)
            == if c.background then Live(s, system, o.ran, exitCode)
               else if o.context.terminate then Life(ByLine, CodeAfter(exitCode, o.context), o.ran)
               else Live(s, system, o.ran, CodeAfter(exitCode, o.context))
  {
    hide Tokenize, Evaluated, Eval, PrintCommand, CommandTokens, Meaning, AllWhole;
    RoundTrip(c, s);
    TextMeansCommand(c, s, After(system, before));
    EvalAfter(system, before, [], Meaning(c));
    assert before + [] == before;
    if c.background {
      assert Leftover(c, s) == Blanks(1) + ("\n" + s) by { OneBlank("\n" + s); assert " " + ("\n" + s) == " \n" + s; }
      EmptyLines("", s, 1, system, Eval(system, before, Meaning(c)).ran, exitCode);
    } else if s == "" {
      AtEnd();
      EvaluatedIs([], After(system, Eval(system, before, Meaning(c)).ran));
    }
  }
}
