/** What the tokenizer makes of a word: plain characters, escapes, continued lines and quotes. */
module ShellQuoting {
  import opened ShellEvaluator
  import opened ShellLexer

  /** Between double quotes. */
  datatype Inner =
    | Char(c: char)
    | Pair(c: char)               // a backslash and a double quote or backslash, which stand for the latter
    | Join                        // a backslash at the end of a line
    | Kept(c: char)               // a backslash and another character: both stand for themselves

  datatype Piece =
    | Plain(c: char)
    | Backslash(c: char)
    | NextLine                    // a backslash at the end of a line
    | SingleQuoted(w: string)
    | DoubleQuoted(body: seq<Inner>)

  function InnerText(q: Inner): string {
    match q
    case Char(c) => [c]
    case Pair(c) => ['\\', c]
    case Join => "\\\n"
    case Kept(c) => ['\\', c]
  }

  function InnerValue(q: Inner): string {
    match q
    case Char(c) => [c]
    case Pair(c) => [c]
    case Join => ""
    case Kept(c) => ['\\', c]
  }

  predicate InnerOk(q: Inner) {
    match q
    case Char(c) => c != '"' && c != '\\'
    case Pair(c) => c == '"' || c == '\\'
    case Join => true
    case Kept(c) => c != '"' && c != '\\' && c != '\n'
  }

  predicate BodyOk(body: seq<Inner>) { forall i :: 0 <= i < |body| ==> InnerOk(body[i]) }

  function BodyText(body: seq<Inner>): string { if body == [] then "" else InnerText(body[0]) + BodyText(body[1..]) }

  function BodyValue(body: seq<Inner>): string { if body == [] then "" else InnerValue(body[0]) + BodyValue(body[1..]) }

  function PieceText(p: Piece): string {
    match p
    case Plain(c) => [c]
    case Backslash(c) => ['\\', c]
    case NextLine => "\\\n"
    case SingleQuoted(w) => "'" + w + "'"
    case DoubleQuoted(body) => "\"" + BodyText(body) + "\""
  }

  function PieceValue(p: Piece): string {
    match p
    case Plain(c) => [c]
    case Backslash(c) => [c]
    case NextLine => ""
    case SingleQuoted(w) => w
    case DoubleQuoted(body) => BodyValue(body)
  }

  function Text(ps: seq<Piece>): string { if ps == [] then "" else PieceText(ps[0]) + Text(ps[1..]) }

  function Value(ps: seq<Piece>): string { if ps == [] then "" else PieceValue(ps[0]) + Value(ps[1..]) }

  /** The characters a word ends at, the end of the input among them. */
  predicate EndsWord(c: char) { c in "&|> \t\r\n\U{ff}" }

  predicate PieceOk(p: Piece) {
    match p
    case Plain(c) => !EndsWord(c) && c != '\'' && c != '"' && c != '\\'
    case Backslash(c) => c != '\n'
    case NextLine => true
    case SingleQuoted(w) => '\'' !in w
    case DoubleQuoted(body) => BodyOk(body)
  }

  /** q may stand directly behind p: the loop looks for a quote only once on its way round, and for ' first. */
  predicate MayFollow(p: Piece, q: Piece) {
    && !(p.SingleQuoted? && q.SingleQuoted?)
    && !(p.DoubleQuoted? && (q.SingleQuoted? || q.DoubleQuoted?))
  }

  predicate WordOk(ps: seq<Piece>) {
    && (forall i :: 0 <= i < |ps| ==> PieceOk(ps[i]))
    && (forall i :: 0 <= i < |ps| - 1 ==> MayFollow(ps[i], ps[i + 1]))
  }

  // ---------------------------------------------------------------- one piece

  /** The loop over a word, with its next character still to be read. */
  function ReadOn(s: string, value: string): Scan { ReadWord(NextChar(s).0, NextChar(s).1, value) }

  lemma DoubleEnd(s: string, value: string)
    ensures Double("\"" + s, value) == Closed(value, s)
  {
    assert ("\"" + s)[1..] == s;
  }

  lemma DoubleInner(q: Inner, s: string, value: string)
    requires InnerOk(q)
    ensures Double(InnerText(q) + s, value) == Double(s, value + InnerValue(q))
  {
    if q.Char? {
      assert ([q.c] + s)[1..] == s;
    } else {
      assert (InnerText(q) + s)[2..] == s;
    }
  }

  /** Between double quotes each part has its value, and the quote behind them closes. */
  lemma {:induction false} DoubleBody(body: seq<Inner>, s: string, value: string)
    requires BodyOk(body)
    ensures Double(BodyText(body) + "\"" + s, value) == Closed(value + BodyValue(body), s)
    decreases |body|
  {
    hide Double, InnerText, InnerValue, InnerOk;
    if body == [] {
      assert BodyText(body) + "\"" + s == "\"" + s && value + BodyValue(body) == value;
      DoubleEnd(s, value);
    } else {
      var q, rest := body[0], BodyText(body[1..]) + "\"" + s;
      DoubleBody(body[1..], s, value + InnerValue(q));
      assert value + InnerValue(q) + BodyValue(body[1..]) == value + BodyValue(body);
      assert BodyText(body) + "\"" + s == InnerText(q) + rest;
      DoubleInner(q, rest, value);
    }
  }

  lemma {:induction false} SingleAsIs(w: string, s: string, value: string)
    requires '\'' !in w
    ensures Single(w + "'" + s, value) == Closed(value + w, s)
    decreases |w|
  {
    var t := w + "'" + s;
    if w == [] {
      assert t == "'" + s && value + w == value;
    } else {
      assert t[1..] == w[1..] + "'" + s;
      SingleAsIs(w[1..], s, value + [w[0]]);
      assert value + [w[0]] + w[1..] == value + w;
    }
  }

  /** A quote begins what is left. */
  predicate QuoteNext(s: string) { s != "" && (s[0] == '\'' || s[0] == '"') }

  lemma ReadUnquoted(p: Piece, s: string, value: string)
    requires PieceOk(p) && !p.SingleQuoted? && !p.DoubleQuoted?
    ensures ReadOn(PieceText(p) + s, value) == ReadOn(s, value + PieceValue(p))
  {
    var t := PieceText(p) + s;
    if p.Plain? {
      assert t[1..] == s;
    } else {
      assert t[1..][1..] == s;
      assert value + "" == value;
    }
  }

  lemma ReadSingleQuoted(w: string, s: string, value: string)
    requires '\'' !in w && (s == "" || s[0] != '\'')
    ensures ReadOn("'" + w + "'" + s, value) == ReadOn(s, value + w)
  {
    var t := "'" + w + "'" + s;
    assert t[1..] == w + "'" + s;
    SingleAsIs(w, s, value);
    Unfold(NextChar(t).0, NextChar(t).1, value);
    Unfold(NextChar(s).0, NextChar(s).1, value + w);
  }

  lemma ReadDoubleQuoted(body: seq<Inner>, s: string, value: string)
    requires BodyOk(body) && !QuoteNext(s)
    ensures ReadOn("\"" + BodyText(body) + "\"" + s, value) == ReadOn(s, value + BodyValue(body))
  {
    var t := "\"" + BodyText(body) + "\"" + s;
    assert t[1..] == BodyText(body) + "\"" + s;
    DoubleBody(body, s, value);
    Unfold(NextChar(t).0, NextChar(t).1, value);
    Unfold(NextChar(s).0, NextChar(s).1, value + BodyValue(body));
  }

  /** Past the quotes, the loop over a word goes on with the character it has reached. */
  function AfterQuotes(h: Head): Scan {
    if h.Stuck? then Open
    else if IsWordEnd(h.c) then Closed(h.value, Ungetc(h.c, h.s))
    else if h.c == '\\' then
      var (d, t) := NextChar(h.s);
      ReadOn(t, if d == '\n' then h.value else h.value + [d])
    else ReadOn(h.s, h.value + [h.c])
  }

  lemma Unfold(c: char, s: string, value: string)
    ensures ReadWord(c, s, value) == AfterQuotes(SkipQuotes(Head(c, s, value)))
  {
  }

  // ---------------------------------------------------------------- a word

  /** s may stand directly behind p. */
  predicate MayStandBehind(p: Piece, s: string) {
    (p.SingleQuoted? ==> s == "" || s[0] != '\'') && (p.DoubleQuoted? ==> !QuoteNext(s))
  }

  lemma ReadPiece(p: Piece, s: string, value: string)
    requires PieceOk(p) && MayStandBehind(p, s)
    ensures ReadOn(PieceText(p) + s, value) == ReadOn(s, value + PieceValue(p))
  {
    hide ReadOn;
    match p
    case SingleQuoted(w) => ReadSingleQuoted(w, s, value);
    case DoubleQuoted(body) => ReadDoubleQuoted(body, s, value);
    case _ => ReadUnquoted(p, s, value);
  }

  /** s may stand directly behind the word. */
  predicate MayEnd(ps: seq<Piece>, s: string) { ps != [] ==> MayStandBehind(ps[|ps| - 1], s) }

  lemma RestOfWord(ps: seq<Piece>, s: string)
    requires WordOk(ps) && ps != [] && MayEnd(ps, s)
    ensures PieceOk(ps[0]) && WordOk(ps[1..]) && MayEnd(ps[1..], s) && MayStandBehind(ps[0], Text(ps[1..]) + s)
    ensures Text(ps) == PieceText(ps[0]) + Text(ps[1..]) && Value(ps) == PieceValue(ps[0]) + Value(ps[1..])
  {
    if |ps| > 1 {
      var next := PieceText(ps[1]);
      assert ps[1..][1..] == ps[2..];
      assert Text(ps[1..]) == next + Text(ps[2..]);
      assert (Text(ps[1..]) + s)[0] == next[0];
      assert MayFollow(ps[0], ps[0 + 1]);
    } else {
      assert Text(ps[1..]) + s == s;
    }
  }

  lemma NoPieces(s: string, value: string)
    ensures Text([]) + s == s && value + Value([]) == value
  {
  }

  /** Past the pieces of a word the loop goes on with their value. */
  lemma {:induction false} ReadOnPieces(ps: seq<Piece>, s: string, value: string)
    requires WordOk(ps) && MayEnd(ps, s)
    ensures ReadOn(Text(ps) + s, value) == ReadOn(s, value + Value(ps))
    decreases |ps|
  {
    hide *;
    if ps == [] {
      NoPieces(s, value);
    } else {
      var p, text, more := ps[0], Text(ps[1..]), Value(ps[1..]);
      RestOfWord(ps, s);
      assert PieceText(p) + text + s == PieceText(p) + (text + s);
      ReadPiece(p, text + s, value);
      ReadOnPieces(ps[1..], s, value + PieceValue(p));
      assert value + PieceValue(p) + more == value + (PieceValue(p) + more);
    }
  }

  /** Nothing, or a character a word ends at and that can be pushed back. */
  predicate WordStops(s: string) { s == "" || (EndsWord(s[0]) && s[0] != '\U{ff}') }

  lemma StopMayEnd(ps: seq<Piece>, s: string)
    requires WordStops(s)
    ensures MayEnd(ps, s)
  {
  }

  /** The word ends where it should, with the value its pieces have. */
  lemma ReadPieces(ps: seq<Piece>, s: string, value: string)
    requires WordOk(ps) && WordStops(s)
    ensures ReadOn(Text(ps) + s, value) == Closed(value + Value(ps), s)
  {
    hide *;
    StopMayEnd(ps, s);
    ReadOnPieces(ps, s, value);
    EndOfWord(s, value + Value(ps));
  }

  lemma EndOfWord(s: string, value: string)
    requires WordStops(s)
    ensures ReadOn(s, value) == Closed(value, s)
  {
    if s != "" {
      assert [s[0]] + s[1..] == s;
    }
  }

  lemma TokenizeSpace(s: string)
    ensures Tokenize(" " + s) == Tokenize(s)
  {
    assert (" " + s)[1..] == s;
    assert SkipSpaces(" " + s) == SkipSpaces(s);
  }

  /** A word that does not look like a comment is read as one token, cut at its first NUL; a word of no characters is fatal. */
  lemma TokenizePieces(ps: seq<Piece>, s: string)
    requires WordOk(ps) && ps != [] && ps[0] != Plain('#') && WordStops(s)
    ensures Tokenize(Text(ps) + s) ==
            if Value(ps) == "" then NullString else Cons([Token(Word, CString(Value(ps)))], Tokenize(s))
  {
    hide Tokenize, ReadOn, CString, EndsWord;
    ReadPieces(ps, s, "");
    assert "" + Value(ps) == Value(ps);
    WordBegins(ps, s);
    TokenizeWord(Text(ps) + s);
  }

  lemma WordBegins(ps: seq<Piece>, s: string)
    requires WordOk(ps) && ps != [] && ps[0] != Plain('#')
    ensures Text(ps) + s != "" && (Text(ps) + s)[0] !in {'&', '|', '>', '#', '\n', ' ', EOF}
  {
    assert PieceOk(ps[0]) && (Text(ps) + s)[0] == PieceText(ps[0])[0];
  }

  lemma TokenizeWord(t: string)
    requires t != "" && t[0] !in {'&', '|', '>', '#', '\n', ' ', EOF}
    ensures Tokenize(t) ==
            match ReadOn(t, "")
            case Open => Diverges
            case Closed(value, rest) => if value == "" then NullString else Cons([Token(Word, CString(value))], Tokenize(rest))
  {
    hide ReadWord;
    assert SkipSpaces(t) == (t[0], t[1..]);
  }

  /** A quote directly behind a double-quoted piece is no quote: it stands for itself. */
  lemma QuoteAfterDoubleQuoted(body: seq<Inner>, quote: char, s: string, value: string)
    requires BodyOk(body) && (quote == '"' || quote == '\'')
    ensures ReadOn("\"" + BodyText(body) + "\"" + [quote] + s, value) == ReadOn(s, value + BodyValue(body) + [quote])
  {
    var t := "\"" + BodyText(body) + "\"" + [quote] + s;
    assert t[1..] == BodyText(body) + "\"" + ([quote] + s);
    DoubleBody(body, [quote] + s, value);
    Unfold(NextChar(t).0, NextChar(t).1, value);
  }

  // ---------------------------------------------------------------- a line

  /** The text of each operator. */
  predicate Spelled(t: Token) {
    match t.kind
    case Word => true
    case Background => t.value == "&"
    case Pipe => t.value == "|"
    case LogicalAnd => t.value == "&&"
    case LogicalOr => t.value == "||"
    case Write => t.value == ">"
    case Append => t.value == ">>"
  }

  /** s does not make another operator of t, and begins with no character that cannot be pushed back. */
  predicate OperatorStops(t: Token, s: string)
    requires t.value != ""
  {
    |t.value| == 1 && s != "" ==> s[0] != t.value[0] && s[0] != '\U{ff}'
  }

  /** An operator is read as itself, whatever other character follows; & ends the line. */
  lemma TokenizeOperator(t: Token, s: string)
    requires Spelled(t) && t.kind != Word && OperatorStops(t, s)
    ensures Tokenize(t.value + s) == if t.kind == Background then Tokens([t], s) else Cons([t], Tokenize(s))
  {
    hide SkipSpaces, Tokenize;
    ReadSpelled(t, s);
    TokenizeStep(t.value + s);
  }

  lemma TokenizeStep(s: string)
    ensures Tokenize(s) ==
            match ReadToken(s)
            case (End, rest) => Tokens([], rest)
            case (Read(token, last), rest) => if last then Tokens([token], rest) else Cons([token], Tokenize(rest))
            case (Endless, _) => Diverges
            case (NoString, _) => NullString
  {
  }

  lemma ReadSpelled(t: Token, s: string)
    requires Spelled(t) && t.kind != Word && OperatorStops(t, s)
    ensures ReadToken(t.value + s) == (Read(t, t.kind == Background), s)
  {
    var text := t.value + s;
    assert SkipSpaces(text) == (text[0], text[1..]);
    if |t.value| == 2 {
      assert text[1..] == [t.value[1]] + s && text[1..][1..] == s;
    } else {
      assert text[1..] == s;
      if s != "" {
        assert [s[0]] + s[1..] == s;
      }
    }
  }

  lemma ConsNothing(line: Line)
    ensures Cons([], line) == line
  {
    if line.Tokens? {
      assert [] + line.tokens == line.tokens;
    }
  }

  lemma ConsCons(xs: seq<Token>, ys: seq<Token>, line: Line)
    ensures Cons(xs, Cons(ys, line)) == Cons(xs + ys, line)
  {
    if line.Tokens? {
      assert xs + (ys + line.tokens) == xs + ys + line.tokens;
    }
  }

  /** An operator or a word, as it is written. */
  datatype Item = Symbol(t: Token) | Pieces(ps: seq<Piece>)

  predicate ItemOk(item: Item) {
    match item
    case Symbol(t) => Spelled(t) && t.kind != Word && t.kind != Background
    case Pieces(ps) => WordOk(ps) && ps != [] && ps[0] != Plain('#')
  }

  function ItemText(item: Item): string { if item.Symbol? then item.t.value else Text(item.ps) }

  function ItemToken(item: Item): Token { if item.Symbol? then item.t else Token(Word, CString(Value(item.ps))) }

  /** A word of no characters. */
  predicate Void(item: Item) { item.Pieces? && Value(item.ps) == "" }

  /** An item with `blanks` spaces behind it. */
  datatype Spaced = Spaced(item: Item, blanks: nat)

  function Blanks(n: nat): string { if n == 0 then "" else " " + Blanks(n - 1) }

  function LineText(line: seq<Spaced>): string {
    if line == [] then "" else ItemText(line[0].item) + (Blanks(line[0].blanks) + LineText(line[1..]))
  }

  function LineTokens(line: seq<Spaced>): seq<Token> {
    if line == [] then [] else [ItemToken(line[0].item)] + LineTokens(line[1..])
  }

  predicate AnyVoid(line: seq<Spaced>) { line != [] && (Void(line[0].item) || AnyVoid(line[1..])) }

  /** s may follow the item without a space: an operator where a word ends, anything but its own continuation where an operator does. */
  predicate MayMeet(item: Item, s: string)
    requires ItemOk(item)
  {
    if item.Symbol? then OperatorStops(item.t, s) else WordStops(s)
  }

  /** Items with spaces where they need them, and s behind the last. */
  predicate LineOk(line: seq<Spaced>, s: string) {
    line == [] || (ItemOk(line[0].item) && LineOk(line[1..], s) && (line[0].blanks == 0 ==> MayMeet(line[0].item, LineText(line[1..]) + s)))
  }

  lemma TokenizeItem(item: Item, s: string)
    requires ItemOk(item) && MayMeet(item, s)
    ensures Tokenize(ItemText(item) + s) == if Void(item) then NullString else Cons([ItemToken(item)], Tokenize(s))
  {
    hide Tokenize, Text, Value, WordOk, WordStops, OperatorStops;
    if item.Symbol? { TokenizeOperator(item.t, s); } else { TokenizePieces(item.ps, s); }
  }

  lemma {:induction false} TokenizeBlanks(n: nat, s: string)
    ensures Tokenize(Blanks(n) + s) == Tokenize(s)
  {
    hide Tokenize;
    if n == 0 {
      assert Blanks(n) + s == s;
    } else {
      assert Blanks(n) + s == " " + (Blanks(n - 1) + s);
      TokenizeSpace(Blanks(n - 1) + s);
      TokenizeBlanks(n - 1, s);
    }
  }

  lemma BlankMeets(item: Item, n: nat, s: string)
    requires ItemOk(item) && n > 0
    ensures MayMeet(item, Blanks(n) + s)
  {
  }

  /** What is read of operators other than & and of words, with spaces or without, and of s behind them. */
  lemma {:induction false} TokenizeItems(line: seq<Spaced>, s: string)
    requires LineOk(line, s)
    ensures Tokenize(LineText(line) + s) == if AnyVoid(line) then NullString else Cons(LineTokens(line), Tokenize(s))
    decreases |line|
  {
    hide Tokenize, ItemText, ItemToken, ItemOk, Void, MayMeet, Blanks;
    if line == [] {
      assert LineText(line) + s == s;
      ConsNothing(Tokenize(s));
    } else {
      var item, n, rest := line[0].item, line[0].blanks, LineText(line[1..]) + s;
      assert LineText(line) + s == ItemText(item) + (Blanks(n) + rest);
      if n == 0 { NoBlanks(rest); } else { BlankMeets(item, n, rest); }
      TokenizeItem(item, Blanks(n) + rest);
      TokenizeBlanks(n, rest);
      TokenizeItems(line[1..], s);
      ConsCons([ItemToken(item)], LineTokens(line[1..]), Tokenize(s));
    }
  }

  lemma NoBlanks(s: string)
    ensures Blanks(0) + s == s
  {
  }

  // ---------------------------------------------------------------- characters between words

  /** A tab or a carriage return where a word could begin makes an empty word. */
  lemma TokenizeTab(c: char, s: string)
    requires c == '\t' || c == '\r'
    ensures Tokenize([c] + s) == NullString
  {
    var t := [c] + s;
    TokenizeWord(t);
    assert ReadOn(t, "") == Closed("", Ungetc(c, t[1..]));
  }

  /** A byte 0xFF where a token could begin ends the line as the end of the input does; directly behind a word it is lost. */
  lemma TokenizeEnd(ps: seq<Piece>, s: string)
    requires WordOk(ps) && ps != [] && ps[0] != Plain('#')
    ensures Tokenize("") == Tokens([], "") && Tokenize("\U{ff}" + s) == Tokens([], s)
    ensures Tokenize(Text(ps) + ("\U{ff}" + s)) ==
            if Value(ps) == "" then NullString else Cons([Token(Word, CString(Value(ps)))], Tokenize(s))
  {
    var t := "\U{ff}" + s;
    assert t[1..] == s;
    ReadOnPieces(ps, t, "");
    assert "" + Value(ps) == Value(ps);
    WordBegins(ps, t);
    TokenizeWord(Text(ps) + t);
  }

  /** A backslash at the end of the input adds the character the end reads as. */
  lemma BackslashAtEnd(value: string)
    ensures ReadOn("\\", value) == Closed(value + "\U{ff}", "")
  {
    assert "\\"[1..] == "";
  }

  // ---------------------------------------------------------------- a comment

  lemma {:induction false} SkipToNewline(w: string, s: string)
    requires '\n' !in w
    ensures SkipComment(w + "\n" + s) == Closed("", s) && SkipComment(w) == Open
    decreases |w|
  {
    var t := w + "\n" + s;
    if w == [] {
      assert t == "\n" + s;
    } else {
      assert t[1..] == w[1..] + "\n" + s;
      SkipToNewline(w[1..], s);
    }
  }

  /** A comment ends its line; at the end of the input the program never finds that end. */
  lemma TokenizeComment(w: string, s: string)
    requires '\n' !in w
    ensures Tokenize("#" + w + "\n" + s) == Tokens([], s)
    ensures Tokenize("#" + w) == Diverges
  {
    SkipToNewline(w, s);
    assert ("#" + w + "\n" + s)[1..] == w + "\n" + s && ("#" + w)[1..] == w;
  }

  // ---------------------------------------------------------------- open quotes

  /** A single quote is left open exactly when no other follows. */
  lemma {:induction false} SingleOpen(s: string, value: string)
    ensures Single(s, value) == Open <==> '\'' !in s
    decreases |s|
  {
    if s != [] && s[0] != '\'' {
      SingleOpen(s[1..], value + [s[0]]);
    }
  }

  /** Characters and pairs of a backslash and a character, no double quote outside a pair. */
  predicate Inside(body: string) {
    body == "" || (body[0] == '\\' && |body| >= 2 && Inside(body[2..])) || (body[0] != '\\' && body[0] != '"' && Inside(body[1..]))
  }

  /** A double quote that is not one of a pair. */
  ghost predicate Closes(s: string) { exists body, rest :: s == body + "\"" + rest && Inside(body) }

  /** A double quote is left open exactly when no other follows but behind a backslash. */
  lemma {:induction false} DoubleOpen(s: string, value: string)
    ensures Double(s, value) == Open <==> !Closes(s)
    decreases |s|
  {
    if s == "" {
      assert forall body: string, rest: string :: |body + "\"" + rest| > 0;
    } else if s[0] == '"' {
      assert s == "" + "\"" + s[1..] && Inside("");
    } else {
      var n := if s[0] == '\\' then 2 else 1;
      if n <= |s| {
        DoubleOpen(s[n..], value + if n == 2 then Escaped(s[1]) else [s[0]]);
        ClosesBehind(s, n);
      } else {
        NoPair(s);
      }
    }
  }

  lemma NoPair(s: string)
    requires s == "\\"
    ensures !Closes(s)
  {
    forall body: string, rest: string ensures s != body + "\"" + rest {
      var t := body + "\"" + rest;
      if body == "" {
        assert t[0] == '"';
      } else {
        assert |t| >= 2;
      }
    }
  }

  lemma ClosesBehind(s: string, n: nat)
    requires 1 <= n <= |s| && s[0] != '"' && n == if s[0] == '\\' then 2 else 1
    ensures Closes(s) <==> Closes(s[n..])
  {
    if Closes(s[n..]) {
      var body, rest :| s[n..] == body + "\"" + rest && Inside(body);
      var longer := s[..n] + body;
      assert longer[n..] == body && Inside(longer);
      assert s == longer + "\"" + rest;
    }
    if Closes(s) {
      var body, rest :| s == body + "\"" + rest && Inside(body);
      assert body != "" && body[0] == s[0];
      assert s[n..] == body[n..] + "\"" + rest;
    }
  }

  /** A quote that is left open. */
  ghost predicate OpenQuote(quote: char, s: string) {
    (quote == '\'' && '\'' !in s) || (quote == '"' && !Closes(s))
  }

  lemma ReadOpenQuote(quote: char, s: string, value: string)
    requires OpenQuote(quote, s)
    ensures ReadOn([quote] + s, value) == Open
  {
    hide Closes;
    SingleOpen(s, value);
    DoubleOpen(s, value);
    var t := [quote] + s;
    assert t[1..] == s;
    Unfold(quote, s, value);
  }

  /** With an open quote, whatever words and pieces of a word are in front of it, the program does not end. */
  lemma TokenizeOpenQuote(line: seq<Spaced>, ps: seq<Piece>, quote: char, s: string)
    requires WordOk(ps) && (ps != [] ==> ps[0] != Plain('#'))
    requires OpenQuote(quote, s) && MayEnd(ps, [quote] + s) && LineOk(line, Text(ps) + ([quote] + s))
    ensures Tokenize(LineText(line) + (Text(ps) + ([quote] + s))) == if AnyVoid(line) then NullString else Diverges
  {
    hide Tokenize, OpenQuote, MayStandBehind, ReadOn, Value;
    var rest := [quote] + s;
    TokenizeItems(line, Text(ps) + rest);
    ReadOnPieces(ps, rest, "");
    ReadOpenQuote(quote, s, "" + Value(ps));
    QuoteBegins(ps, quote, s);
    TokenizeWord(Text(ps) + rest);
  }

  lemma QuoteBegins(ps: seq<Piece>, quote: char, s: string)
    requires WordOk(ps) && (ps != [] ==> ps[0] != Plain('#')) && OpenQuote(quote, s)
    ensures var t := Text(ps) + ([quote] + s); t != "" && t[0] !in {'&', '|', '>', '#', '\n', ' ', EOF}
  {
    hide Closes;
    if ps != [] { WordBegins(ps, [quote] + s); }
  }
}
