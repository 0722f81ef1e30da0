/** Writing a command down, reading it back, and running it. */
module ShellRoundTrip {
  import opened ShellCommand
  import opened ShellEvaluator
  import opened ShellLexer
  import opened ShellQuoting

  // ---------------------------------------------------------------- writing

  /** w as it is written between double quotes. */
  function Inners(w: string): seq<Inner> {
    if w == "" then [] else [if w[0] == '"' || w[0] == '\\' then Pair(w[0]) else Char(w[0])] + Inners(w[1..])
  }

  lemma {:induction false} InnersAre(w: string)
    ensures BodyOk(Inners(w)) && BodyValue(Inners(w)) == w
  {
    if w != "" {
      InnersAre(w[1..]);
    }
  }

  function Quote(w: string): string { PieceText(DoubleQuoted(Inners(w))) }

  function PrintToken(t: Token): string { if t.kind == Word then Quote(t.value) else t.value }

  /** A space behind each token. */
  function Print(tokens: seq<Token>): string {
    if tokens == [] then "" else PrintToken(tokens[0]) + " " + Print(tokens[1..])
  }

  /** The command on a line of its own, every word in double quotes. */
  function PrintCommand(c: Command): string
    requires EntriesOk(c.entries)
  {
    Print(CommandTokens(c)) + "\n"
  }

  // ---------------------------------------------------------------- reading a line back

  /** A token as it is read back: its value ends at the first NUL. */
  function Cut(t: Token): Token { if t.kind == Word then t.(value := CString(t.value)) else t }

  function CutAll(tokens: seq<Token>): (r: seq<Token>)
    ensures |r| == |tokens| && forall i :: 0 <= i < |r| ==> r[i] == Cut(tokens[i])
  {
    seq(|tokens|, i requires 0 <= i < |tokens| => Cut(tokens[i]))
  }

  predicate HasEmptyWord(tokens: seq<Token>) {
    tokens != [] && ((tokens[0].kind == Word && tokens[0].value == "") || HasEmptyWord(tokens[1..]))
  }

  /** The tokens as they are written. */
  function Items(tokens: seq<Token>): seq<Spaced> {
    if tokens == [] then []
    else [Spaced(if tokens[0].kind == Word then Pieces([DoubleQuoted(Inners(tokens[0].value))]) else Symbol(tokens[0]), 1)] + Items(tokens[1..])
  }

  lemma QuotedPiece(w: string)
    ensures WordOk([DoubleQuoted(Inners(w))]) && Text([DoubleQuoted(Inners(w))]) == Quote(w) && Value([DoubleQuoted(Inners(w))]) == w
  {
    InnersAre(w);
    assert [DoubleQuoted(Inners(w))][1..] == [];
  }

  lemma OneBlank(s: string)
    ensures Blanks(1) + s == " " + s
  {
    assert Blanks(0) == "";
  }

  lemma {:induction false} ItemsAre(tokens: seq<Token>, s: string)
    requires forall i :: 0 <= i < |tokens| ==> Spelled(tokens[i]) && tokens[i].kind != Background
    ensures LineOk(Items(tokens), s) && LineText(Items(tokens)) == Print(tokens) && LineTokens(Items(tokens)) == CutAll(tokens)
    ensures AnyVoid(Items(tokens)) <==> HasEmptyWord(tokens)
    decreases |tokens|
  {
    hide ItemOk, ItemText, ItemToken, Void, Spelled, PrintToken, Cut, Blanks, MayMeet;
    if tokens != [] {
      var t, item := tokens[0], Items(tokens)[0].item;
      ItemIs(t, item);
      OneBlank(Print(tokens[1..]));
      ItemsAre(tokens[1..], s);
      assert Items(tokens)[1..] == Items(tokens[1..]);
      assert Print(tokens) == PrintToken(t) + (" " + Print(tokens[1..]));
      assert CutAll(tokens) == [Cut(t)] + CutAll(tokens[1..]);
    }
  }

  lemma ItemIs(t: Token, item: Item)
    requires Spelled(t) && t.kind != Background
    requires item == if t.kind == Word then Pieces([DoubleQuoted(Inners(t.value))]) else Symbol(t)
    ensures ItemOk(item) && ItemText(item) == PrintToken(t) && ItemToken(item) == Cut(t)
    ensures Void(item) <==> t.kind == Word && t.value == ""
  {
    hide Text, Value, Quote, WordOk, Inners;
    QuotedPiece(t.value);
  }

  /** What is read of the text of tokens other than &, and of s behind it. */
  lemma TokenizeAll(tokens: seq<Token>, s: string)
    requires forall i :: 0 <= i < |tokens| ==> Spelled(tokens[i]) && tokens[i].kind != Background
    ensures Tokenize(Print(tokens) + s) == if HasEmptyWord(tokens) then NullString else Cons(CutAll(tokens), Tokenize(s))
  {
    hide *;
    ItemsAre(tokens, s);
    TokenizeItems(Items(tokens), s);
  }

  lemma TokenizeNewline(s: string)
    ensures Tokenize("\n" + s) == Tokens([], s)
  {
    assert ("\n" + s)[1..] == s;
  }

  lemma ProgramSpelled(p: Program)
    ensures forall i :: 0 <= i < |ProgramTokens(p)| ==> Spelled(ProgramTokens(p)[i]) && ProgramTokens(p)[i].kind != Background
  {
  }

  lemma {:induction false} PipelineSpelled(ps: seq<Program>)
    requires ps != []
    ensures forall i :: 0 <= i < |PipelineTokens(ps)| ==> Spelled(PipelineTokens(ps)[i]) && PipelineTokens(ps)[i].kind != Background
    decreases |ps|
  {
    hide ProgramTokens;
    ProgramSpelled(ps[0]);
    if |ps| > 1 {
      PipelineSpelled(ps[1..]);
    }
  }

  lemma {:induction false} EntriesSpelled(entries: seq<Entry>)
    requires EntriesOk(entries)
    ensures forall i :: 0 <= i < |EntriesTokens(entries)| ==> Spelled(EntriesTokens(entries)[i]) && EntriesTokens(entries)[i].kind != Background
    decreases |entries|
  {
    hide PipelineTokens;
    PipelineSpelled(entries[0].pipeline);
    if |entries| > 1 {
      EntriesSpelled(entries[1..]);
    }
  }

  /** Behind the & of a background command the rest of its line is left over: an empty line. */
  function Leftover(c: Command, s: string): string { if c.background then " \n" + s else s }

  /** Everything there is to know of a written command: what is read back, and what is left of the input. */
  lemma ReadPrinted(c: Command, s: string)
    requires EntriesOk(c.entries)
    ensures Tokenize(PrintCommand(c) + s) ==
            if HasEmptyWord(EntriesTokens(c.entries)) then NullString else Tokens(CutAll(CommandTokens(c)), Leftover(c, s))
    ensures c.background ==> Tokenize(Leftover(c, s)) == Tokens([], s)
  {
    hide Tokenize, EntriesTokens, Print, HasEmptyWord;
    var tokens, all := EntriesTokens(c.entries), CommandTokens(c);
    EntriesSpelled(c.entries);
    TokenizeNewline(s);
    TokenizeSpace("\n" + s);
    assert " " + ("\n" + s) == " \n" + s;
    if c.background {
      var amp := Token(Background, "&");
      PrintSnoc(tokens, amp);
      assert PrintCommand(c) + s == Print(tokens) + (PrintToken(amp) + " " + ("\n" + s));
      assert PrintToken(amp) + " " + ("\n" + s) == amp.value + (" \n" + s);
      TokenizeOperator(amp, " \n" + s);
      TokenizeAll(tokens, PrintToken(amp) + " " + ("\n" + s));
      assert CutAll(all) == CutAll(tokens) + [amp];
    } else {
      assert all == tokens;
      assert PrintCommand(c) + s == Print(tokens) + ("\n" + s);
      TokenizeAll(tokens, "\n" + s);
      assert CutAll(all) == CutAll(tokens) + [];
    }
  }

  lemma {:induction false} PrintSnoc(tokens: seq<Token>, t: Token)
    ensures Print(tokens + [t]) == Print(tokens) + (PrintToken(t) + " ")
    decreases |tokens|
  {
    hide PrintToken;
    if tokens == [] {
      assert Print([t]) == PrintToken(t) + " " + Print([t][1..]);
    } else {
      assert (tokens + [t])[1..] == tokens[1..] + [t];
      PrintSnoc(tokens[1..], t);
    }
  }

  // ---------------------------------------------------------------- the round trip

  /** A word of at least one character and no NUL. */
  predicate Whole(t: Token) { t.kind == Word ==> t.value != "" && '\0' !in t.value }

  lemma {:induction false} CutWhole(w: string)
    ensures CString(w) == w <==> '\0' !in w
    ensures |CString(w)| <= |w|
  {
    if w != [] {
      CutWhole(w[1..]);
    }
  }

  /** Of a word only what is in front of its first NUL is left. */
  lemma {:induction false} CutAtNul(w: string, rest: string)
    requires '\0' !in w
    ensures CString(w + ['\0'] + rest) == w
    decreases |w|
  {
    var t := w + ['\0'] + rest;
    if w == [] {
      assert t[0] == '\0';
    } else {
      assert t[1..] == w[1..] + ['\0'] + rest;
      CutAtNul(w[1..], rest);
    }
  }

  lemma {:induction false} NoEmptyWord(tokens: seq<Token>)
    ensures HasEmptyWord(tokens) <==> exists i :: 0 <= i < |tokens| && tokens[i] == Token(Word, "")
    decreases |tokens|
  {
    if tokens != [] {
      NoEmptyWord(tokens[1..]);
      if i :| 0 <= i < |tokens[1..]| && tokens[1..][i] == Token(Word, "") {
        assert tokens[i + 1] == Token(Word, "");
      }
    }
  }

  /** All tokens come back as they are exactly if every word is whole. */
  lemma CutAllWhole(tokens: seq<Token>)
    ensures (!HasEmptyWord(tokens) && CutAll(tokens) == tokens) <==> forall i :: 0 <= i < |tokens| ==> Whole(tokens[i])
  {
    NoEmptyWord(tokens);
    forall i | 0 <= i < |tokens| ensures Cut(tokens[i]) == tokens[i] <==> (tokens[i].kind == Word ==> '\0' !in tokens[i].value) {
      CutWhole(tokens[i].value);
    }
    if forall i :: 0 <= i < |tokens| ==> Whole(tokens[i]) {
      assert CutAll(tokens) == tokens;
    } else {
      var i :| 0 <= i < |tokens| && !Whole(tokens[i]);
      assert tokens[i] == Token(Word, "") || CutAll(tokens)[i] != tokens[i];
    }
  }

  function CutWords(words: seq<string>): (r: seq<string>)
    ensures |r| == |words| && forall i :: 0 <= i < |r| ==> r[i] == CString(words[i])
  {
    seq(|words|, i requires 0 <= i < |words| => CString(words[i]))
  }

  function CutProgram(p: Program): Program {
    p.(argv := CutWords(p.argv), output := if p.output == None then None else Some(CString(p.output.value)))
  }

  function CutPipeline(ps: seq<Program>): (r: seq<Program>)
    ensures |r| == |ps| && forall i :: 0 <= i < |r| ==> r[i] == CutProgram(ps[i])
  {
    seq(|ps|, i requires 0 <= i < |ps| => CutProgram(ps[i]))
  }

  function CutEntries(entries: seq<Entry>): (r: seq<Entry>)
    ensures |r| == |entries| && forall i :: 0 <= i < |r| ==> r[i] == Entry(CutPipeline(entries[i].pipeline), entries[i].next)
  {
    seq(|entries|, i requires 0 <= i < |entries| => Entry(CutPipeline(entries[i].pipeline), entries[i].next))
  }

  lemma CutConcat(a: seq<Token>, b: seq<Token>)
    ensures CutAll(a + b) == CutAll(a) + CutAll(b)
  {
  }

  lemma CutProgramTokens(p: Program)
    ensures ProgramTokens(CutProgram(p)) == CutAll(ProgramTokens(p))
  {
  }

  lemma {:induction false} CutPipelineTokens(ps: seq<Program>)
    requires ps != []
    ensures PipelineTokens(CutPipeline(ps)) == CutAll(PipelineTokens(ps))
    decreases |ps|
  {
    hide ProgramTokens;
    CutProgramTokens(ps[0]);
    if |ps| > 1 {
      var pipe, rest := [Token(Pipe, "|")], PipelineTokens(ps[1..]);
      CutPipelineTokens(ps[1..]);
      assert CutPipeline(ps)[1..] == CutPipeline(ps[1..]);
      CutConcat(ProgramTokens(ps[0]) + pipe, rest);
      CutConcat(ProgramTokens(ps[0]), pipe);
      assert CutAll(pipe) == pipe;
    }
  }

  lemma {:induction false} CutEntriesTokens(entries: seq<Entry>)
    requires EntriesOk(entries)
    ensures EntriesOk(CutEntries(entries)) && EntriesTokens(CutEntries(entries)) == CutAll(EntriesTokens(entries))
    decreases |entries|
  {
    hide PipelineTokens;
    CutPipelineTokens(entries[0].pipeline);
    if |entries| > 1 {
      var e := entries[0];
      var operator, rest := [if e.next == And then Token(LogicalAnd, "&&") else Token(LogicalOr, "||")], EntriesTokens(entries[1..]);
      CutEntriesTokens(entries[1..]);
      assert CutEntries(entries)[1..] == CutEntries(entries[1..]);
      CutConcat(PipelineTokens(e.pipeline) + operator, rest);
      CutConcat(PipelineTokens(e.pipeline), operator);
      assert CutAll(operator) == operator;
    }
  }

  /** Reading the text of the command, with s behind it, gives the command. */
  predicate ReadsBack(c: Command, s: string)
    requires EntriesOk(c.entries)
  {
    var line := Tokenize(PrintCommand(c) + s);
    line.Tokens? && Slice(line.tokens) == Ok(c)
  }

  predicate AllWhole(c: Command)
    requires EntriesOk(c.entries)
  {
    forall i :: 0 <= i < |EntriesTokens(c.entries)| ==> Whole(EntriesTokens(c.entries)[i])
  }

  /** A command written down is read back as itself exactly if none of its words is empty or holds a NUL. */
  lemma RoundTrip(c: Command, s: string)
    requires EntriesOk(c.entries)
    ensures ReadsBack(c, s) <==> AllWhole(c)
    ensures AllWhole(c) ==> Tokenize(PrintCommand(c) + s) == Tokens(CommandTokens(c), Leftover(c, s))
  {
    hide Tokenize, Slice, HasEmptyWord, EntriesTokens, PrintCommand;
    var tokens := EntriesTokens(c.entries);
    var amp := if c.background then [Token(Background, "&")] else [];
    ReadPrinted(c, s);
    CutAllWhole(tokens);
    CutConcat(tokens, amp);
    assert CutAll(amp) == amp;
    CutEntriesTokens(c.entries);
    SliceTokens(c.(entries := CutEntries(c.entries)));
    SliceTokens(c);
    if ReadsBack(c, s) {
      assert CutEntries(c.entries) == c.entries;
      assert AllWhole(c);
    }
  }

  // ---------------------------------------------------------------- running it

  const EXIT_NO_CODE := -1

  /** What a line says of itself: a & at its end. */
  predicate InBackground(tokens: seq<Token>) { tokens != [] && tokens[|tokens| - 1].kind == Background }

  /**
   evaluate: a command in the background is run by a child, whose status is not waited
   for. A line of no tokens runs nothing, has no status and does not end the shell; nor
   does one in the background, and any other only if the last pipeline it runs does.
   */
  method Evaluate(tokens: seq<Token>, system: System) returns (r: Result<Outcome>)
    ensures r == Evaluated(tokens, system)
    ensures tokens == [] ==> r == Ok(Outcome(Context(-1, false), []))
    ensures r.Ok? && InBackground(tokens) ==> r.value.context == Context(-1, false)
    ensures r.Ok? && tokens != [] && !InBackground(tokens) ==> r.value.ran != [] && r.value.context == r.value.ran[|r.value.ran| - 1].context
  {
    EvaluatedIs(tokens, system);
    if |tokens| == 0 {
      return Ok(Outcome(Context(EXIT_NO_CODE, false), []));
    }
    var command := BuildCommand(tokens);
    if command.Fault? {
      return Fault;
    }
    SomeEntry(tokens);
    var context, ran := CommandExec(command.value.entries, system);
    return Ok(Outcome(if command.value.background then Context(EXIT_NO_CODE, false) else context, ran));
  }

  function Evaluated(tokens: seq<Token>, system: System): Result<Outcome> {
    if tokens == [] then Ok(Outcome(Context(EXIT_NO_CODE, false), []))
    else
      match Slice(tokens)
      case Fault => Fault
      case Ok(c) =>
        SomeEntry(tokens);
        var o := Eval(system, [], Tree(c.entries, Length(c.entries)));
        Ok(if c.background then o.(context := Context(EXIT_NO_CODE, false)) else o)
  }

  lemma EvaluatedIs(tokens: seq<Token>, system: System)
    ensures var r := Evaluated(tokens, system);
            && (tokens == [] ==> r == Ok(Outcome(Context(-1, false), [])))
            && (r.Ok? && InBackground(tokens) ==> r.value.context == Context(-1, false))
            && (r.Ok? && tokens != [] && !InBackground(tokens) ==>
                  r.value.ran != [] && r.value.context == r.value.ran[|r.value.ran| - 1].context)
  {
    hide MakeEntries, Follows;
    if tokens != [] && Slice(tokens).Ok? {
      SomeEntry(tokens);
      var entries := Slice(tokens).value.entries;
      var at := EvalFollows(entries, Length(entries), system);
      AtLeastOne(entries, Length(entries), system, Eval(system, [], Tree(entries, Length(entries))).ran, at);
    }
  }

  lemma AtLeastOne(command: seq<Entry>, n: nat, system: System, ran: seq<Done>, at: seq<nat>)
    requires Follows(command, n, system, ran, at)
    ensures ran != []
  {
  }

  lemma SomeEntry(tokens: seq<Token>)
    requires tokens != [] && Slice(tokens).Ok?
    ensures Slice(tokens).value.entries != []
  {
    SomeEntryFrom(tokens, 0, 0);
  }

  lemma {:induction false} SomeEntryFrom(tokens: seq<Token>, left: nat, i: nat)
    requires i < |tokens| && MakeEntries(tokens, left, i).Ok?
    ensures MakeEntries(tokens, left, i).value != []
    decreases |tokens| - i
  {
    hide MakeEntry;
    if !IsLogical(tokens[i].kind) && i < |tokens| - 1 {
      SomeEntryFrom(tokens, left, i + 1);
    }
  }

  /** The AND-OR list a command writes down, as the standard groups it. */
  function Meaning(c: Command): AndOr
    requires EntriesOk(c.entries)
  {
    Tree(c.entries, |c.entries|)
  }

  /** From its text to its effects: a command with whole words runs as the standard says its AND-OR list does. */
  lemma TextMeansCommand(c: Command, s: string, system: System)
    requires EntriesOk(c.entries) && AllWhole(c)
    ensures var line := Tokenize(PrintCommand(c) + s);
            && line.Tokens?
            && var o := Eval(system, [], Meaning(c));
               Evaluated(line.tokens, system) == Ok(if c.background then o.(context := Context(EXIT_NO_CODE, false)) else o)
  {
    hide Tokenize, Slice, PrintCommand, Eval;
    RoundTrip(c, s);
    SliceTokens(c);
    EntriesKinds(c.entries);
    WholeLength(c.entries, 0);
  }

  lemma {:induction false} WholeLength(entries: seq<Entry>, i: nat)
    requires EntriesOk(entries) && i < |entries|
    ensures Length(entries[i..]) == |entries| - i && entries[0..] == entries
    decreases |entries| - i
  {
    if i < |entries| - 1 {
      assert entries[i..][1..] == entries[i + 1..];
      WholeLength(entries, i + 1);
    }
  }
}
