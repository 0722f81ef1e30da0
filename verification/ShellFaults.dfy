/** Exactly which token lists the slicing of evaluate reads outside of. */
module ShellFaults {
  import opened ShellEvaluator
  import opened ShellLexer
  import opened ShellQuoting

  predicate Splits(kind: Kind) { kind == Pipe || IsLogical(kind) }

  /** From i on, the last token is the first redirection. */
  predicate LastRedirects(tokens: seq<Token>, i: nat) {
    && i < |tokens| && IsRedirection(tokens[|tokens| - 1].kind)
    && forall k :: i <= k < |tokens| - 1 ==> !IsRedirection(tokens[k].kind)
  }

  /** No token from i on splits programs or entries. */
  predicate Unsplit(tokens: seq<Token>, i: nat) { forall k :: i <= k < |tokens| ==> !Splits(tokens[k].kind) }

  /** The last program from left on ends with a redirection, its first: the file name is missing. */
  predicate NoFileName(tokens: seq<Token>, left: nat) {
    exists s :: left <= s < |tokens| && (s == left || Splits(tokens[s - 1].kind)) && Unsplit(tokens, s) && LastRedirects(tokens, s)
  }

  /** A redirection, or a pipe with no redirection behind it but perhaps the last token. */
  predicate BadStart(tokens: seq<Token>)
    requires tokens != []
  {
    || IsRedirection(tokens[0].kind)
    || (tokens[0].kind == Pipe && forall k :: 0 <= k < |tokens| - 1 ==> !IsRedirection(tokens[k].kind))
  }

  /** An index runs around below 0, or behind the last token. */
  predicate ReadsOutside(tokens: seq<Token>) {
    && tokens != []
    && (|| IsLogical(tokens[0].kind)
        || (tokens[0].kind == Background && |tokens| == 1)
        || BadStart(tokens)
        || NoFileName(tokens, 0))
  }

  // ---------------------------------------------------------------- one program

  lemma {:induction false} ArgvWithin(tokens: seq<Token>, left: nat, right: nat)
    requires right < |tokens| || right + 1 == left
    ensures Argv(tokens, left, right).Ok?
    decreases |tokens| - left
  {
    if left <= right {
      ArgvWithin(tokens, left + 1, right);
    }
  }

  lemma {:induction false} ArgvOutside(tokens: seq<Token>, left: nat)
    requires |tokens| <= SIZE_MAX
    ensures left <= SIZE_MAX ==> Argv(tokens, left, SIZE_MAX).Fault?
    decreases |tokens| - left
  {
    if left < |tokens| {
      ArgvOutside(tokens, left + 1);
    }
  }

  /** A program that begins at left and at no redirection of index 0. */
  lemma {:induction false} ProgramFaults(tokens: seq<Token>, left: nat, right: nat, i: nat)
    requires right < |tokens| && left <= i <= right + 1 && (i == 0 ==> !IsRedirection(tokens[0].kind))
    ensures MakeProgram(tokens, left, right, i).Fault? <==> right == |tokens| - 1 && LastRedirects(tokens, i)
    decreases |tokens| - i
  {
    hide Argv;
    ArgvWithin(tokens, left, right);
    if i <= right {
      if IsRedirection(tokens[i].kind) {
        ArgvWithin(tokens, left, i - 1);
      } else {
        ProgramFaults(tokens, left, right, i + 1);
      }
    }
  }

  lemma ProgramAtRedirection(tokens: seq<Token>, right: nat)
    requires 0 < |tokens| <= SIZE_MAX && IsRedirection(tokens[0].kind)
    ensures MakeProgram(tokens, 0, right, 0).Fault?
  {
    ArgvOutside(tokens, 0);
  }

  /** The program before a pipe of index 0: the search for its redirection does not stop at the pipe. */
  lemma {:induction false} ProgramAtPipe(tokens: seq<Token>, i: nat)
    requires |tokens| <= SIZE_MAX && 0 < i <= |tokens|
    ensures MakeProgram(tokens, 0, SIZE_MAX, i).Fault? <==> forall k :: i <= k < |tokens| - 1 ==> !IsRedirection(tokens[k].kind)
    decreases |tokens| - i
  {
    hide Argv;
    if i < |tokens| {
      if IsRedirection(tokens[i].kind) {
        ArgvWithin(tokens, 0, i - 1);
      } else {
        ProgramAtPipe(tokens, i + 1);
      }
    } else {
      ArgvOutside(tokens, 0);
    }
  }

  // ---------------------------------------------------------------- a pipeline

  lemma NoFileNameBehind(tokens: seq<Token>, left: nat, i: nat)
    requires left <= i < |tokens| && Splits(tokens[i].kind)
    ensures NoFileName(tokens, left) <==> NoFileName(tokens, i + 1)
  {
    if NoFileName(tokens, left) {
      var s :| left <= s < |tokens| && (s == left || Splits(tokens[s - 1].kind)) && Unsplit(tokens, s) && LastRedirects(tokens, s);
      assert i + 1 <= s;
    }
  }

  lemma NoFileNameHere(tokens: seq<Token>, left: nat)
    requires left < |tokens| && forall k :: left <= k < |tokens| - 1 ==> !Splits(tokens[k].kind)
    ensures NoFileName(tokens, left) <==> LastRedirects(tokens, left)
  {
    if LastRedirects(tokens, left) {
      assert Unsplit(tokens, left);
    }
  }

  /** A pipeline, its next program beginning at left, and no pipe from left to i. */
  lemma {:induction false} PipelineFaults(tokens: seq<Token>, left: nat, right: nat, i: nat)
    requires right < |tokens| && left <= i <= right + 1 && (i == right + 1 ==> i == left)
    requires left == 0 ==> !IsRedirection(tokens[0].kind) && tokens[0].kind != Pipe
    requires forall k :: left <= k < right ==> !IsLogical(tokens[k].kind)
    requires forall k :: left <= k < i ==> tokens[k].kind != Pipe
    ensures MakePipeline(tokens, left, right, i).Fault? <==> right == |tokens| - 1 && NoFileName(tokens, left)
    decreases |tokens| - i
  {
    hide MakeProgram, NoFileName;
    if i > right {
      if right == |tokens| - 1 { NothingLeft(tokens, left); }
    } else if tokens[i].kind == Pipe {
      ProgramFaults(tokens, left, i - 1, left);
      PipelineFaults(tokens, i + 1, right, i + 1);
      if right == |tokens| - 1 { NoFileNameBehind(tokens, left, i); }
    } else if i == right {
      ProgramFaults(tokens, left, right, left);
      if right == |tokens| - 1 { NoFileNameHere(tokens, left); }
    } else {
      PipelineFaults(tokens, left, right, i + 1);
    }
  }

  lemma NothingLeft(tokens: seq<Token>, left: nat)
    requires left >= |tokens|
    ensures !NoFileName(tokens, left)
  {
  }

  /** A pipeline that does not end in the list. */
  lemma {:induction false} PipelineOutside(tokens: seq<Token>, left: nat, i: nat)
    requires |tokens| <= SIZE_MAX && i <= |tokens|
    ensures MakePipeline(tokens, left, SIZE_MAX, i).Fault?
    decreases |tokens| - i
  {
    hide MakeProgram;
    if i < |tokens| {
      if tokens[i].kind == Pipe { PipelineOutside(tokens, i + 1, i + 1); }
      else if i < SIZE_MAX { PipelineOutside(tokens, left, i + 1); }
    }
  }

  /** A redirection of index 0 is the first program's, whatever follows. */
  lemma {:induction false} PipelineAtRedirection(tokens: seq<Token>, right: nat, i: nat)
    requires |tokens| <= SIZE_MAX && i <= right < |tokens| && IsRedirection(tokens[0].kind)
    ensures MakePipeline(tokens, 0, right, i).Fault?
    decreases |tokens| - i
  {
    hide MakeProgram;
    if tokens[i].kind == Pipe {
      ProgramAtRedirection(tokens, Before(i));
    } else if i == right {
      ProgramAtRedirection(tokens, i);
    } else {
      PipelineAtRedirection(tokens, right, i + 1);
    }
  }

  lemma FirstPipeline(tokens: seq<Token>, right: nat)
    requires |tokens| <= SIZE_MAX && right < |tokens| && forall k :: 0 <= k < right ==> !IsLogical(tokens[k].kind)
    ensures MakePipeline(tokens, 0, right, 0).Fault? <==> BadStart(tokens) || (right == |tokens| - 1 && NoFileName(tokens, 0))
  {
    hide MakeProgram, NoFileName;
    if IsRedirection(tokens[0].kind) {
      PipelineAtRedirection(tokens, right, 0);
    } else if tokens[0].kind == Pipe {
      PipeFirst(tokens);
      PipelineFaults(tokens, 1, right, 1);
      NoFileNameBehind(tokens, 0, 0);
    } else {
      PipelineFaults(tokens, 0, right, 0);
    }
  }

  lemma PipeFirst(tokens: seq<Token>)
    requires 0 < |tokens| <= SIZE_MAX && tokens[0].kind == Pipe
    ensures MakeProgram(tokens, 0, SIZE_MAX, 0).Fault? <==> BadStart(tokens)
  {
    ProgramAtPipe(tokens, 1);
  }

  // ---------------------------------------------------------------- a line

  /** An entry with at least one token, or behind another one: its pipeline ends before the operator or the final &. */
  lemma EntryFaults(tokens: seq<Token>, left: nat, right: nat)
    requires |tokens| <= SIZE_MAX && right < |tokens| && left <= right + 1
    requires forall k :: left <= k < right ==> !IsLogical(tokens[k].kind)
    ensures MakePipeline(tokens, left, right, left).Fault?
            <==> (left == 0 && BadStart(tokens)) || (right == |tokens| - 1 && NoFileName(tokens, left))
  {
    hide MakePipeline, NoFileName, BadStart;
    if left == 0 { FirstPipeline(tokens, right); } else { PipelineFaults(tokens, left, right, left); }
  }

  /** The entries from left on, with no operator from left to i. */
  lemma {:induction false} EntriesFault(tokens: seq<Token>, left: nat, i: nat)
    requires |tokens| <= SIZE_MAX && left <= i <= |tokens| && (i == |tokens| ==> i == left)
    requires left == 0 ==> i < |tokens| && !IsLogical(tokens[0].kind) && !(tokens[0].kind == Background && |tokens| == 1)
    requires forall k :: left <= k < i ==> !IsLogical(tokens[k].kind)
    ensures MakeEntries(tokens, left, i).Fault? <==> (left == 0 && BadStart(tokens)) || NoFileName(tokens, left)
    decreases |tokens| - i
  {
    hide MakePipeline, NoFileName, BadStart;
    var n := |tokens|;
    if i == n {
      NothingLeft(tokens, left);
    } else if IsLogical(tokens[i].kind) {
      EntryFaults(tokens, left, i - 1);
      EntriesFault(tokens, i + 1, i + 1);
      NoFileNameBehind(tokens, left, i);
    } else if i < n - 1 {
      EntriesFault(tokens, left, i + 1);
    } else if tokens[i].kind == Background {
      EntryFaults(tokens, left, i - 1);
      EndsWithoutRedirection(tokens, left);
    } else {
      EntryFaults(tokens, left, i);
    }
  }

  lemma EndsWithoutRedirection(tokens: seq<Token>, left: nat)
    requires tokens != [] && tokens[|tokens| - 1].kind == Background
    ensures !NoFileName(tokens, left)
  {
  }

  /**
   evaluate reads outside the token list exactly if the line begins with an operator
   or a redirection, is a single &, begins with a pipe and has no redirection before
   its last token, or ends with a redirection that is the first of its program.
   */
  lemma SliceFaultsExactly(tokens: seq<Token>)
    requires |tokens| <= SIZE_MAX
    ensures Slice(tokens) == Fault <==> ReadsOutside(tokens)
  {
    hide MakeEntries, NoFileName;
    if tokens == [] {
      EmptyLine();
    } else if IsLogical(tokens[0].kind) {
      OperatorFirst(tokens);
    } else if tokens[0].kind == Background && |tokens| == 1 {
      OnlyBackground(tokens);
    } else {
      EntriesFault(tokens, 0, 0);
    }
  }

  lemma EmptyLine()
    ensures MakeEntries([], 0, 0) == Ok([])
  {
  }

  lemma OperatorFirst(tokens: seq<Token>)
    requires 0 < |tokens| <= SIZE_MAX && IsLogical(tokens[0].kind)
    ensures MakeEntries(tokens, 0, 0).Fault?
  {
    PipelineOutside(tokens, 0, 0);
  }

  lemma OnlyBackground(tokens: seq<Token>)
    requires |tokens| == 1 && tokens[0].kind == Background
    ensures MakeEntries(tokens, 0, 0).Fault?
  {
    PipelineOutside(tokens, 0, 0);
  }

  // ---------------------------------------------------------------- the inputs

  lemma ReadMissingName()
    ensures Tokenize("a > \n") == Tokens([Token(Word, "a"), Token(Write, ">")], "")
  {
    hide Tokenize, CString, WordOk;
    var word := [Plain('a')];
    PlainWord();
    assert "a > \n" == Text(word) + " > \n" && " > \n" == " " + (">" + " \n") && " \n" == " " + "\n";
    TokenizePieces(word, " > \n");
    TokenizeSpace(">" + " \n");
    TokenizeOperator(Token(Write, ">"), " \n");
    TokenizeSpace("\n");
    TokenizeEmptyLine();
  }

  lemma PlainWord()
    ensures WordOk([Plain('a')]) && Text([Plain('a')]) == "a" && Value([Plain('a')]) == "a" && CString("a") == "a"
  {
    assert [Plain('a')][1..] == [];
  }

  lemma TokenizeEmptyLine()
    ensures Tokenize("\n") == Tokens([], "")
  {
  }

  lemma ReadBackground()
    ensures Tokenize("&\n") == Tokens([Token(Background, "&")], "\n")
  {
    assert "&\n"[1..] == "\n" && "\n"[1..] == "";
  }

  /** Lines that show it, as they are typed: a missing file name, and a lone &. */
  lemma LinesThatFault()
    ensures Tokenize("a > \n") == Tokens([Token(Word, "a"), Token(Write, ">")], "") && Slice([Token(Word, "a"), Token(Write, ">")]) == Fault
    ensures Tokenize("&\n") == Tokens([Token(Background, "&")], "\n") && Slice([Token(Background, "&")]) == Fault
  {
    hide Tokenize, Slice;
    ReadMissingName();
    ReadBackground();
    var redirected := [Token(Word, "a"), Token(Write, ">")];
    assert Unsplit(redirected, 0) && LastRedirects(redirected, 0);
    SliceFaultsExactly(redirected);
    SliceFaultsExactly([Token(Background, "&")]);
  }
}
