/**
 tokenize_command over the characters of the input. At the end of the input every read
 gives the EOF character, as a byte 0xFF in it does, and such a character cannot be
 pushed back. Where the program loops for ever (an open quote or comment at the end) or
 passes NULL to strdup (a word of no characters) the model says so.
 */
module ShellLexer {
  import opened ShellEvaluator

  /** (char) EOF */
  const EOF: char := '\U{ff}'

  /** next_char */
  function NextChar(s: string): (char, string) {
    if s == [] then (EOF, []) else (s[0], s[1..])
  }

  /** ungetc */
  function Ungetc(c: char, s: string): string {
    if c == EOF then s else [c] + s
  }

  predicate IsWordEnd(c: char) {
    c == '&' || c == '|' || c == '>' || c == ' ' || c == '\t' || c == '\r' || c == '\n' || c == EOF
  }

  // ---------------------------------------------------------------- as functions

  /** What a word or quote yields: the characters so far and the input behind. */
  datatype Scan = Open | Closed(value: string, rest: string)

  /** Behind a single quote. */
  function Single(s: string, value: string): (r: Scan)
    ensures r.Closed? ==> |r.rest| < |s|
    decreases |s|
  {
    if s == [] then Open
    else if s[0] == '\'' then Closed(value, s[1..])
    else Single(s[1..], value + [s[0]])
  }

  /** What a backslash and c stand for inside double quotes. */
  function Escaped(c: char): string {
    if c == '"' || c == '\\' then [c]
    else if c != '\n' then ['\\', c]
    else []
  }

  /** Behind a double quote. */
  function Double(s: string, value: string): (r: Scan)
    ensures r.Closed? ==> |r.rest| < |s|
    decreases |s|
  {
    if s == [] then Open
    else if s[0] == '"' then Closed(value, s[1..])
    else if s[0] != '\\' then Double(s[1..], value + [s[0]])
    else if |s| == 1 then Open
    else Double(s[2..], value + Escaped(s[1]))
  }

  /** In the loop over a word: the character read last, the input behind it, and the word so far. */
  datatype Head = Stuck | Head(c: char, s: string, value: string)

  function Behind(r: Scan): Head {
    match r
    case Open => Stuck
    case Closed(value, rest) => Head(NextChar(rest).0, NextChar(rest).1, value)
  }

  function SkipSingle(h: Head): Head {
    if h.Stuck? || h.c != '\'' then h else Behind(Single(h.s, h.value))
  }

  function SkipDouble(h: Head): Head {
    if h.Stuck? || h.c != '"' then h else Behind(Double(h.s, h.value))
  }

  /** Past a single-quoted and then a double-quoted part, where there are such. */
  function SkipQuotes(h: Head): (r: Head)
    ensures r.Head? && h.Head? ==> r == h || |Ungetc(r.c, r.s)| < |h.s|
    ensures r.Head? && h.Head? && h.c != '\'' && h.c != '"' ==> r == h
  {
    SkipDouble(SkipSingle(h))
  }

  /** The loop over a word. */
  function ReadWord(c: char, s: string, value: string): (r: Scan)
    ensures r.Closed? ==> |r.rest| <= |s| || IsWordEnd(c)
    ensures IsWordEnd(c) ==> r == Closed(value, Ungetc(c, s))
    decreases |s|, if c == EOF then 0 else 1
  {
    var h := SkipQuotes(Head(c, s, value));
    if h.Stuck? then Open
    else if IsWordEnd(h.c) then Closed(h.value, Ungetc(h.c, h.s))
    else if h.c == '\\' then
      var (d, t) := NextChar(h.s);
      var (e, u) := NextChar(t);
      ReadWord(e, u, if d == '\n' then h.value else h.value + [d])
    else
      var (e, u) := NextChar(h.s);
      ReadWord(e, u, h.value + [h.c])
  }

  /** What strdup makes of it. */
  function CString(s: string): string {
    if s == [] || s[0] == '\0' then [] else [s[0]] + CString(s[1..])
  }

  /** A line read: its tokens and the input behind it. */
  datatype Line = Tokens(tokens: seq<Token>, rest: string) | Diverges | NullString

  function SkipSpaces(s: string): (r: (char, string))
    ensures r.0 != ' ' && (s != [] ==> |r.1| < |s|) && (s == [] ==> r.0 == EOF)
  {
    if s != [] && s[0] == ' ' then SkipSpaces(s[1..]) else NextChar(s)
  }

  /** Behind the end of the line a comment is in. */
  function SkipComment(s: string): (r: Scan) {
    if s == [] then Open else if s[0] == '\n' then Closed("", s[1..]) else SkipComment(s[1..])
  }

  /** One round of the loop; `last` says that the line ends with the token. */
  datatype Step = End | Read(token: Token, last: bool) | Endless | NoString

  /** The character c, and the same again or not. */
  function ReadOperator(c: char, single: Kind, double: Kind, t: string): (r: (Step, string))
    ensures |r.1| <= |t|
  {
    var (d, u) := NextChar(t);
    if d == c then (Read(Token(double, [c, c]), false), u)
    else (Read(Token(single, [c]), single == Background), Ungetc(d, u))
  }

  function ReadToken(s: string): (r: (Step, string))
    ensures r.0.Read? ==> |r.1| < |s|
  {
    var (c, t) := SkipSpaces(s);
    if c == EOF then (End, t)
    else if c == '&' then ReadOperator(c, Background, LogicalAnd, t)
    else if c == '|' then ReadOperator(c, Pipe, LogicalOr, t)
    else if c == '>' then ReadOperator(c, Write, Append, t)
    else if c == '#' then
      match SkipComment(t)
      case Open => (Endless, t)
      case Closed(_, rest) => (End, rest)
    else if c == '\n' then (End, t)
    else
      match ReadWord(c, t, "")
      case Open => (Endless, t)
      case Closed(value, rest) =>
        if value == "" then (NoString, rest) else (Read(Token(Word, CString(value)), false), rest)
  }

  function Cons(tokens: seq<Token>, line: Line): Line {
    match line
    case Tokens(more, rest) => Tokens(tokens + more, rest)
    case _ => line
  }

  function Tokenize(s: string): Line
    decreases |s|
  {
    match ReadToken(s)
    case (End, rest) => Tokens([], rest)
    case (Read(token, last), rest) => if last then Tokens([token], rest) else Cons([token], Tokenize(rest))
    case (Endless, _) => Diverges
    case (NoString, _) => NullString
  }

  // ---------------------------------------------------------------- as the program does it

  class Stdin {
    var rest: string

    constructor (input: string)
      ensures rest == input
    {
      rest := input;
    }

    method Next() returns (c: char)
      modifies this
      ensures (c, rest) == NextChar(old(rest))
    {
      if rest == [] {
        return EOF;
      }
      c := rest[0];
      rest := rest[1..];
    }

    method Unget(c: char)
      modifies this
      ensures rest == Ungetc(c, old(rest))
    {
      if c != EOF {
        rest := [c] + rest;
      }
    }

    /** Reads up to the closing quote; false if there is none. */
    method QuoteSingle(start: string) returns (closed: bool, value: string)
      modifies this
      ensures if closed then Single(old(rest), start) == Closed(value, rest) else Single(old(rest), start) == Open
    {
      value := start;
      while rest != []
        invariant Single(rest, value) == Single(old(rest), start)
        decreases |rest|
      {
        var c := Next();
        if c == '\'' {
          return true, value;
        }
        value := value + [c];
      }
      closed := false;
    }

    method QuoteDouble(start: string) returns (closed: bool, value: string)
      modifies this
      ensures if closed then Double(old(rest), start) == Closed(value, rest) else Double(old(rest), start) == Open
    {
      value := start;
      while rest != []
        invariant Double(rest, value) == Double(old(rest), start)
        decreases |rest|
      {
        var c := Next();
        if c == '"' {
          return true, value;
        }
        if c == '\\' {
          if rest == [] {
            return false, value;
          }
          c := Next();
          ghost var before := value;
          if c == '"' || c == '\\' {
            value := value + [c];
          } else if c != '\n' {
            value := value + ['\\'];
            value := value + [c];
          }
          assert value == before + Escaped(c);
        } else {
          value := value + [c];
        }
      }
      closed := false;
    }

    /** The loop over a word that begins with `first`. */
    method Word(first: char) returns (closed: bool, value: string)
      modifies this
      ensures if closed then ReadWord(first, old(rest), "") == Closed(value, rest) else ReadWord(first, old(rest), "") == Open
    {
      var c := first;
      value := "";
      while true
        invariant ReadWord(c, rest, value) == ReadWord(first, old(rest), "")
        decreases |rest|, if c == EOF then 0 else 1
      {
        ghost var h := Head(c, rest, value);
        if c == '\'' {
          closed, value := QuoteSingle(value);
          if !closed {
            return;
          }
          c := Next();
        }
        assert Head(c, rest, value) == SkipSingle(h);
        if c == '"' {
          closed, value := QuoteDouble(value);
          if !closed {
            return;
          }
          c := Next();
        }
        assert Head(c, rest, value) == SkipQuotes(h);
        if IsWordEnd(c) {
          Unget(c);
          return true, value;
        }
        if c == '\\' {
          c := Next();
          if c == '\n' {
            c := Next();
          } else {
            value := value + [c];
            c := Next();
          }
        } else {
          value := value + [c];
          c := Next();
        }
      }
    }

    /** The comment up to the end of its line; false if that never comes. */
    method Comment() returns (closed: bool)
      modifies this
      ensures if closed then SkipComment(old(rest)) == Closed("", rest) else SkipComment(old(rest)) == Open
    {
      while rest != []
        invariant SkipComment(rest) == SkipComment(old(rest))
        decreases |rest|
      {
        var c := Next();
        if c == '\n' {
          return true;
        }
      }
      closed := false;
    }

    method Spaces() returns (c: char)
      modifies this
      ensures (c, rest) == SkipSpaces(old(rest))
    {
      c := Next();
      while c == ' '
        invariant SkipSpaces(old(rest)) == if c == ' ' then SkipSpaces(rest) else (c, rest)
        decreases |rest|, if c == ' ' then 1 else 0
      {
        c := Next();
      }
    }

    method Operator(c: char, single: Kind, double: Kind) returns (step: Step)
      requires c != EOF
      modifies this
      ensures (step, rest) == ReadOperator(c, single, double, old(rest))
    {
      var next := Next();
      if next == c {
        return Read(Token(double, [c, next]), false);
      }
      Unget(next);
      return Read(Token(single, [c]), single == Background);
    }

    /** One round of the loop of tokenize_command. */
    method NextToken() returns (step: Step)
      modifies this
      ensures step == ReadToken(old(rest)).0
      ensures step.End? || step.Read? ==> rest == ReadToken(old(rest)).1
    {
      hide ReadWord, SkipComment, SkipSpaces;
      var c := Spaces();
      if c == EOF {
        return End;
      }
      if c == '&' {
        step := Operator(c, Background, LogicalAnd);
      } else if c == '|' {
        step := Operator(c, Pipe, LogicalOr);
      } else if c == '>' {
        step := Operator(c, Write, Append);
      } else if c == '#' {
        var closed := Comment();
        return if closed then End else Endless;
      } else if c == '\n' {
        return End;
      } else {
        var closed, value := Word(c);
        if !closed {
          return Endless;
        }
        if value == "" {
          return NoString;
        }
        return Read(Token(ShellEvaluator.Word, CString(value)), false);
      }
    }

    /** tokenize_command */
    method TokenizeCommand() returns (line: Line)
      modifies this
      ensures line == Tokenize(old(rest)) && (line.Tokens? ==> rest == line.rest)
    {
      hide ReadToken;
      var tokens: seq<Token> := [];
      while true
        invariant Tokenize(old(rest)) == Cons(tokens, Tokenize(rest))
        decreases |rest|
      {
        var step := NextToken();
        match step
        case End => return Tokens(tokens, rest);
        case Endless => return Diverges;
        case NoString => return NullString;
        case Read(token, last) =>
          tokens := tokens + [token];
          if last {
            return Tokens(tokens, rest);
          }
      }
    }
  }
}
