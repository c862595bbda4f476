/**
 * The quote-aware command tokenizer. The loop of the source is compared with a grammar: a command is a
 * list of pieces, and its words are the pieces between the unquoted white space.
 */
module Tokenizer {
  import opened Texts

  datatype Mode = Out | Single | Double

  datatype State = State(tokens: seq<string>, current: string, mode: Mode, hasContent: bool)

  datatype Outcome = Tokens(tokens: seq<string>) | TrailingBackslash | UnterminatedQuote

  const START := State([], "", Out, false)

  function Push(s: State, text: string): State {
    s.(current := s.current + text, hasContent := true)
  }

  function Flush(s: State): State {
    if s.hasContent then s.(tokens := s.tokens + [s.current], current := "", hasContent := false) else s
  }

  /** The rest of the loop, from a state and the characters that are left. */
  function Scan(s: State, input: string): Outcome
    decreases |input|
  {
    if input == "" then
      if s.mode != Out then UnterminatedQuote else Tokens(Flush(s).tokens)
    else
      var ch := input[0];
      if ch == '\\' && s.mode != Single then
        if |input| == 1 then TrailingBackslash else Scan(Push(s, [input[1]]), input[2..])
      else if ch == '\'' && s.mode != Double then
        Scan(s.(mode := if s.mode == Single then Out else Single, hasContent := true), input[1..])
      else if ch == '"' && s.mode != Single then
        Scan(s.(mode := if s.mode == Double then Out else Double, hasContent := true), input[1..])
      else if s.mode == Out && IsSpace(ch) then Scan(Flush(s), input[1..])
      else Scan(Push(s, [ch]), input[1..])
  }

  method TokenizeCommand(input: string) returns (outcome: Outcome)
    ensures outcome == Scan(START, input)
  {
    var tokens: seq<string> := [];
    var current := "";
    var inSingle, inDouble, hasContent := false, false, false;
    var i := 0;
    assert input[0..] == input;
    while i < |input|
      invariant 0 <= i <= |input|
      invariant !(inSingle && inDouble)
      invariant Scan(State(tokens, current, if inSingle then Single else if inDouble then Double else Out, hasContent), input[i..])
             == Scan(START, input)
    {
      var ch := input[i];
      assert input[i..][1..] == input[i + 1..];
      if ch == '\\' && !inSingle {
        if i + 1 >= |input| {
          return TrailingBackslash;
        }
        assert input[i..][2..] == input[i + 2..];
        current := current + [input[i + 1]];
        hasContent := true;
        i := i + 1;
      } else if ch == '\'' && !inDouble {
        inSingle := !inSingle;
        hasContent := true;
      } else if ch == '"' && !inSingle {
        inDouble := !inDouble;
        hasContent := true;
      } else if !inSingle && !inDouble && IsSpace(ch) {
        if hasContent {
          tokens := tokens + [current];
          current := "";
          hasContent := false;
        }
      } else {
        current := current + [ch];
        hasContent := true;
      }
      i := i + 1;
    }
    if inSingle || inDouble {
      return UnterminatedQuote;
    }
    if hasContent {
      tokens := tokens + [current];
    }
    return Tokens(tokens);
  }

  // ----- the grammar

  /** One character of a double-quoted text. */
  datatype DChar = DPlain(c: char) | DEscaped(c: char)

  datatype Piece = Plain(c: char) | Escaped(c: char) | SingleQuoted(body: string) | DoubleQuoted(chars: seq<DChar>)

  predicate ValidDChars(chars: seq<DChar>) {
    forall i :: 0 <= i < |chars| ==> chars[i].DPlain? ==> chars[i].c != '"' && chars[i].c != '\\'
  }

  predicate NoQuote(body: string) {
    forall i :: 0 <= i < |body| ==> body[i] != '\''
  }

  predicate ValidPiece(p: Piece) {
    match p
    case Plain(c) => c != '\\' && c != '\'' && c != '"'
    case Escaped(_) => true
    case SingleQuoted(body) => NoQuote(body)
    case DoubleQuoted(chars) => ValidDChars(chars)
  }

  predicate Valid(pieces: seq<Piece>) {
    forall i :: 0 <= i < |pieces| ==> ValidPiece(pieces[i])
  }

  function DText(chars: seq<DChar>): string {
    if chars == [] then ""
    else (if chars[0].DEscaped? then ['\\', chars[0].c] else [chars[0].c]) + DText(chars[1..])
  }

  function DValue(chars: seq<DChar>): string {
    if chars == [] then "" else [chars[0].c] + DValue(chars[1..])
  }

  function PieceText(p: Piece): string {
    match p
    case Plain(c) => [c]
    case Escaped(c) => ['\\', c]
    case SingleQuoted(body) => "'" + body + "'"
    case DoubleQuoted(chars) => "\"" + DText(chars) + "\""
  }

  function PieceValue(p: Piece): string {
    match p
    case Plain(c) => [c]
    case Escaped(c) => [c]
    case SingleQuoted(body) => body
    case DoubleQuoted(chars) => DValue(chars)
  }

  predicate Separator(p: Piece) {
    p.Plain? && IsSpace(p.c)
  }

  function Text(pieces: seq<Piece>): string {
    if pieces == [] then "" else PieceText(pieces[0]) + Text(pieces[1..])
  }

  /** The value of a run of pieces with no separator. */
  function WordValue(pieces: seq<Piece>): string {
    if pieces == [] then "" else PieceValue(pieces[0]) + WordValue(pieces[1..])
  }

  /** The length of the first run of pieces with no separator. */
  function WordLength(pieces: seq<Piece>): (n: nat)
    ensures n <= |pieces|
    ensures forall i :: 0 <= i < n ==> !Separator(pieces[i])
    ensures n < |pieces| ==> Separator(pieces[n])
  {
    if pieces == [] || Separator(pieces[0]) then 0 else 1 + WordLength(pieces[1..])
  }

  /** The words of a command: its maximal runs of pieces with no separator. An empty run is no word. */
  function Words(pieces: seq<Piece>): seq<string>
    decreases |pieces|
  {
    if pieces == [] then []
    else if Separator(pieces[0]) then Words(pieces[1..])
    else [WordValue(pieces[..WordLength(pieces)])] + Words(pieces[WordLength(pieces)..])
  }

  // ----- the scanner over the grammar

  lemma {:induction false} ScanSingle(s: State, body: string, rest: string)
    requires s.mode == Single && s.hasContent && NoQuote(body)
    ensures Scan(s, body + rest) == Scan(Push(s, body), rest)
    decreases |body|
  {
    if body == "" {
      assert body + rest == rest && s.current + body == s.current;
    } else {
      assert (body + rest)[1..] == body[1..] + rest;
      ScanSingle(Push(s, [body[0]]), body[1..], rest);
      assert s.current + [body[0]] + body[1..] == s.current + body;
    }
  }

  lemma {:induction false} ScanDouble(s: State, chars: seq<DChar>, rest: string)
    requires s.mode == Double && s.hasContent && ValidDChars(chars)
    ensures Scan(s, DText(chars) + rest) == Scan(Push(s, DValue(chars)), rest)
    decreases |chars|
  {
    if chars == [] {
      assert DText(chars) + rest == rest && s.current + "" == s.current;
    } else {
      var first, others := chars[0], chars[1..];
      assert chars == [first] + others && ValidDChars(others) && ValidDChars([first]);
      hide Scan, Push, DText, DValue, ValidDChars;
      ScanDChar(s, first, DText(others) + rest);
      DCharsParts(first, others, rest);
      PushTwo(s, [first.c], DValue(others));
      ScanDouble(Push(s, [first.c]), others, rest);
    }
  }

  lemma DCharsParts(first: DChar, others: seq<DChar>, rest: string)
    ensures DText([first] + others) + rest == DText([first]) + (DText(others) + rest)
    ensures DValue([first] + others) == [first.c] + DValue(others)
  {
    assert ([first] + others)[1..] == others && [first][1..] == [];
  }

  lemma PushTwo(s: State, a: string, b: string)
    ensures Push(Push(s, a), b) == Push(s, a + b) && Push(s, a).mode == s.mode && Push(s, a).hasContent
  {
    assert s.current + a + b == s.current + (a + b);
  }

  /** One character or escape inside double quotes. */
  lemma {:induction false} ScanDChar(s: State, ch: DChar, rest: string)
    requires s.mode == Double && s.hasContent && ValidDChars([ch])
    ensures Scan(s, DText([ch]) + rest) == Scan(Push(s, [ch.c]), rest)
  {
    assert [ch][1..] == [];
    if ch.DEscaped? {
      assert DText([ch]) + rest == ['\\', ch.c] + rest;
      ScanEscape(s, ch.c, rest);
    } else {
      assert [ch][0].c != '"' && DText([ch]) + rest == [ch.c] + rest;
      ScanOne(s, ch.c, rest);
    }
  }

  /** The state after a character that does not start an escape. */
  function Next(s: State, ch: char): State {
    if ch == '\'' && s.mode != Double then s.(mode := if s.mode == Single then Out else Single, hasContent := true)
    else if ch == '"' && s.mode != Single then s.(mode := if s.mode == Double then Out else Double, hasContent := true)
    else if s.mode == Out && IsSpace(ch) then Flush(s)
    else Push(s, [ch])
  }

  lemma {:induction false} ScanOne(s: State, ch: char, rest: string)
    requires ch != '\\' || s.mode == Single
    ensures Scan(s, [ch] + rest) == Scan(Next(s, ch), rest)
  {
    assert ([ch] + rest)[1..] == rest;
  }

  lemma {:induction false} ScanEscape(s: State, ch: char, rest: string)
    requires s.mode != Single
    ensures Scan(s, ['\\', ch] + rest) == Scan(Push(s, [ch]), rest)
  {
    assert (['\\', ch] + rest)[2..] == rest;
  }

  lemma {:induction false} ScanSingleQuoted(s: State, body: string, rest: string)
    requires s.mode == Out && NoQuote(body)
    ensures Scan(s, "'" + body + "'" + rest) == Scan(Push(s, body), rest)
  {
    var q := s.(mode := Single, hasContent := true);
    var tail := ['\''] + rest;
    assert "'" + body + "'" + rest == ['\''] + (body + tail);
    ScanOne(s, '\'', body + tail);
    ScanSingle(q, body, tail);
    ScanOne(Push(q, body), '\'', rest);
  }

  lemma {:induction false} ScanDoubleQuoted(s: State, chars: seq<DChar>, rest: string)
    requires s.mode == Out && ValidDChars(chars)
    ensures Scan(s, "\"" + DText(chars) + "\"" + rest) == Scan(Push(s, DValue(chars)), rest)
  {
    var q := s.(mode := Double, hasContent := true);
    var body, tail := DText(chars), ['"'] + rest;
    assert "\"" + body + "\"" + rest == ['"'] + (body + tail);
    ScanOne(s, '"', body + tail);
    ScanDouble(q, chars, tail);
    ScanOne(Push(q, DValue(chars)), '"', rest);
  }

  lemma {:induction false} ScanPiece(s: State, p: Piece, rest: string)
    requires s.mode == Out && ValidPiece(p)
    ensures Scan(s, PieceText(p) + rest) == Scan(if Separator(p) then Flush(s) else Push(s, PieceValue(p)), rest)
  {
    match p
    case Plain(c) => ScanOne(s, c, rest);
    case Escaped(c) => ScanEscape(s, c, rest);
    case SingleQuoted(body) => ScanSingleQuoted(s, body, rest);
    case DoubleQuoted(chars) => ScanDoubleQuoted(s, chars, rest);
  }

  function After(s: State, pieces: seq<Piece>): State
    decreases |pieces|
  {
    if pieces == [] then s
    else After(if Separator(pieces[0]) then Flush(s) else Push(s, PieceValue(pieces[0])), pieces[1..])
  }

  lemma {:induction false} ScanPieces(s: State, pieces: seq<Piece>, rest: string)
    requires s.mode == Out && Valid(pieces)
    ensures After(s, pieces).mode == Out
    ensures Scan(s, Text(pieces) + rest) == Scan(After(s, pieces), rest)
    decreases |pieces|
  {
    if pieces == [] {
      assert Text(pieces) + rest == rest;
    } else {
      assert Text(pieces) + rest == PieceText(pieces[0]) + (Text(pieces[1..]) + rest);
      ScanPiece(s, pieces[0], Text(pieces[1..]) + rest);
      ScanPieces(if Separator(pieces[0]) then Flush(s) else Push(s, PieceValue(pieces[0])), pieces[1..], rest);
    }
  }

  /** A run with no separator only extends the current word. */
  lemma {:induction false} AfterWord(s: State, pieces: seq<Piece>)
    requires forall i :: 0 <= i < |pieces| ==> !Separator(pieces[i])
    ensures After(s, pieces) == if pieces == [] then s else Push(s, WordValue(pieces))
    decreases |pieces|
  {
    if pieces != [] {
      AfterWord(Push(s, PieceValue(pieces[0])), pieces[1..]);
      assert s.current + PieceValue(pieces[0]) + WordValue(pieces[1..]) == s.current + WordValue(pieces);
      if pieces[1..] == [] { assert PieceValue(pieces[0]) + "" == PieceValue(pieces[0]); }
    }
  }

  lemma {:induction false} AfterSplits(s: State, a: seq<Piece>, b: seq<Piece>)
    ensures After(s, a + b) == After(After(s, a), b)
    decreases |a|
  {
    if a == [] {
      assert a + b == b;
    } else {
      assert (a + b)[0] == a[0] && (a + b)[1..] == a[1..] + b;
      AfterSplits(if Separator(a[0]) then Flush(s) else Push(s, PieceValue(a[0])), a[1..], b);
    }
  }

  /** From a state with no word begun, the scanner collects the words. */
  lemma {:induction false} AfterCollectsWords(s: State, pieces: seq<Piece>)
    requires !s.hasContent && s.current == ""
    ensures Flush(After(s, pieces)).tokens == s.tokens + Words(pieces)
    decreases |pieces|
  {
    if pieces == [] {
    } else if Separator(pieces[0]) {
      AfterCollectsWords(s, pieces[1..]);
    } else {
      var n := WordLength(pieces);
      var word, rest := pieces[..n], pieces[n..];
      assert word + rest == pieces;
      AfterSplits(s, word, rest);
      AfterWord(s, word);
      var s1 := After(s, word);
      assert s1.current == WordValue(word);
      if rest == [] {
        assert Flush(After(s, pieces)).tokens == s.tokens + [WordValue(word)];
      } else {
        AfterCollectsWords(Flush(s1), rest[1..]);
        assert Words(rest) == Words(rest[1..]);
        assert s.tokens + [WordValue(word)] + Words(rest[1..]) == s.tokens + ([WordValue(word)] + Words(rest));
      }
    }
  }

  // ----- the three kinds of input

  /** What is left after the complete pieces of a command. */
  datatype Tail = Complete | OpenSingle(body: string) | OpenDouble(chars: seq<DChar>) | Trailing | TrailingInDouble(chars: seq<DChar>)

  predicate ValidTail(t: Tail) {
    match t
    case OpenSingle(body) => NoQuote(body)
    case OpenDouble(chars) => ValidDChars(chars)
    case TrailingInDouble(chars) => ValidDChars(chars)
    case _ => true
  }

  function TailText(t: Tail): string {
    match t
    case Complete => ""
    case OpenSingle(body) => "'" + body
    case OpenDouble(chars) => "\"" + DText(chars)
    case Trailing => "\\"
    case TrailingInDouble(chars) => "\"" + DText(chars) + "\\"
  }

  /** What the grammar says of a command: its words, an open quote, or an escape with nothing after it. */
  function Reading(pieces: seq<Piece>, t: Tail): Outcome {
    match t
    case Complete => Tokens(Words(pieces))
    case OpenSingle(_) => UnterminatedQuote
    case OpenDouble(_) => UnterminatedQuote
    case _ => TrailingBackslash
  }

  /** However an input is read as pieces and a tail, the tokenizer gives exactly that reading. */
  lemma {:induction false} TokenizeFollowsTheGrammar(pieces: seq<Piece>, t: Tail)
    requires Valid(pieces) && ValidTail(t)
    ensures Scan(START, Text(pieces) + TailText(t)) == Reading(pieces, t)
  {
    var input := TailText(t);
    ScanPieces(START, pieces, input);
    var s := After(START, pieces);
    match t
    case Complete => AfterCollectsWords(START, pieces);
    case OpenSingle(body) =>
      assert input[1..] == body + "";
      ScanSingle(s.(mode := Single, hasContent := true), body, "");
    case OpenDouble(chars) =>
      assert input[1..] == DText(chars) + "";
      ScanDouble(s.(mode := Double, hasContent := true), chars, "");
    case Trailing =>
    case TrailingInDouble(chars) =>
      assert input[1..] == DText(chars) + "\\";
      ScanDouble(s.(mode := Double, hasContent := true), chars, "\\");
  }

  lemma {:induction false} ReadSingle(input: string) returns (body: string, closed: bool)
    ensures NoQuote(body)
    ensures |body| <= |input| && input[..|body|] == body
    ensures if closed then |body| < |input| && input[|body|] == '\'' else body == input
  {
    if input == "" { return "", false; }
    if input[0] == '\'' { return "", true; }
    var rest;
    rest, closed := ReadSingle(input[1..]);
    body := [input[0]] + rest;
    assert input == [input[0]] + input[1..] && input[1..] == rest + input[1..][|rest|..];
    assert input == body + input[1..][|rest|..];
  }

  lemma {:induction false} ReadDouble(input: string) returns (chars: seq<DChar>, left: string)
    ensures ValidDChars(chars) && input == DText(chars) + left
    ensures left == "" || left == "\\" || left[0] == '"'
    decreases |input|
  {
    if input == "" || input[0] == '"' || input == "\\" { return [], input; }
    var n := if input[0] == '\\' then 2 else 1;
    var rest;
    rest, left := ReadDouble(input[n..]);
    var first := if n == 2 then DEscaped(input[1]) else DPlain(input[0]);
    chars := [first] + rest;
    assert chars[1..] == rest;
    assert input == input[..n] + input[n..];
  }

  /** The first piece of an input, or the tail that is all of it. */
  lemma {:induction false} FirstPiece(input: string) returns (first: Piece, t: Tail)
    requires input != ""
    ensures ValidTail(t) && (t != Complete ==> input == TailText(t))
    ensures t == Complete ==> ValidPiece(first) && |PieceText(first)| <= |input| && input[..|PieceText(first)|] == PieceText(first)
  {
    first, t := Plain(' '), Complete;
    if input[0] == '\\' {
      if |input| == 1 { t := Trailing; } else { first := Escaped(input[1]); }
    } else if input[0] == '\'' {
      var body, closed := ReadSingle(input[1..]);
      if closed {
        first := SingleQuoted(body);
        assert input[..|body| + 2] == "'" + body + "'";
      } else {
        t := OpenSingle(body);
      }
    } else if input[0] == '"' {
      var chars, left := ReadDouble(input[1..]);
      assert input == "\"" + DText(chars) + left;
      if left == "" { t := OpenDouble(chars); }
      else if left == "\\" { t := TrailingInDouble(chars); }
      else {
        first := DoubleQuoted(chars);
        assert left[..1] == "\"";
        assert input[..|DText(chars)| + 2] == "\"" + DText(chars) + left[..1];
      }
    } else {
      first := Plain(input[0]);
    }
  }

  /** Every input has such a reading, so the tokenizer is the grammar on all inputs. */
  lemma {:induction false} EveryInputHasAReading(input: string) returns (pieces: seq<Piece>, t: Tail)
    ensures Valid(pieces) && ValidTail(t) && input == Text(pieces) + TailText(t)
    decreases |input|
  {
    if input == "" {
      pieces, t := [], Complete;
    } else {
      var first;
      first, t := FirstPiece(input);
      if t != Complete {
        pieces := [];
        assert input == "" + TailText(t);
      } else {
        var rest;
        rest, t := EveryInputHasAReading(input[|PieceText(first)|..]);
        pieces := [first] + rest;
        TextStep(first, rest, TailText(t), input);
      }
    }
  }

  lemma {:induction false} TextStep(first: Piece, rest: seq<Piece>, tail: string, input: string)
    requires |PieceText(first)| <= |input| && input[..|PieceText(first)|] == PieceText(first)
    requires input[|PieceText(first)|..] == Text(rest) + tail
    ensures input == Text([first] + rest) + tail
  {
    assert ([first] + rest)[1..] == rest;
    assert input == input[..|PieceText(first)|] + input[|PieceText(first)|..];
  }

  /** `input` reads as complete pieces and one tail of a given outcome. */
  ghost predicate ReadsAs(input: string, outcome: Outcome) {
    exists pieces, t :: Valid(pieces) && ValidTail(t) && input == Text(pieces) + TailText(t) && Reading(pieces, t) == outcome
  }

  /**
   * On every input the tokenizer gives the one outcome that the grammar gives: the words, an open
   * quote, or an escape with nothing after it.
   */
  lemma {:induction false} TokenizeIsTheGrammar(input: string, outcome: Outcome)
    ensures Scan(START, input) == outcome <==> ReadsAs(input, outcome)
  {
    if ReadsAs(input, outcome) {
      var pieces, t :| Valid(pieces) && ValidTail(t) && input == Text(pieces) + TailText(t) && Reading(pieces, t) == outcome;
      TokenizeFollowsTheGrammar(pieces, t);
    }
    if Scan(START, input) == outcome {
      var pieces, t := EveryInputHasAReading(input);
      TokenizeFollowsTheGrammar(pieces, t);
      assert Reading(pieces, t) == outcome;
    }
  }

  // ----- joining and quoting

  lemma {:induction false} TextJoins(a: seq<Piece>, b: seq<Piece>)
    ensures Text(a + b) == Text(a) + Text(b)
  {
    if a == [] {
      assert a + b == b;
    } else {
      assert (a + b)[1..] == a[1..] + b;
      TextJoins(a[1..], b);
    }
  }

  lemma {:induction false} WordLengthStops(a: seq<Piece>, b: seq<Piece>)
    requires b != [] && Separator(b[0])
    ensures WordLength(a + b) == WordLength(a)
  {
    if a == [] {
      assert a + b == b;
    } else {
      assert (a + b)[0] == a[0] && (a + b)[1..] == a[1..] + b;
      if !Separator(a[0]) { WordLengthStops(a[1..], b); }
    }
  }

  lemma {:induction false} WordsJoin(a: seq<Piece>, b: seq<Piece>)
    requires b != [] && Separator(b[0])
    ensures Words(a + b) == Words(a) + Words(b[1..])
    decreases |a|
  {
    if a == [] {
      assert a + b == b;
    } else if Separator(a[0]) {
      assert (a + b)[0] == a[0] && (a + b)[1..] == a[1..] + b;
      WordsJoin(a[1..], b);
    } else {
      var n := WordLength(a);
      assert (a + b)[0] == a[0];
      WordLengthStops(a, b);
      assert (a + b)[..n] == a[..n] && (a + b)[n..] == a[n..] + b;
      WordsJoin(a[n..], b);
    }
  }

  lemma {:induction false} ReadCommand(input: string) returns (pieces: seq<Piece>)
    requires Scan(START, input).Tokens?
    ensures Valid(pieces) && input == Text(pieces) && Scan(START, input) == Tokens(Words(pieces))
  {
    var t;
    pieces, t := EveryInputHasAReading(input);
    TokenizeFollowsTheGrammar(pieces, t);
  }

  lemma {:induction false} TokenizePieces(pieces: seq<Piece>)
    requires Valid(pieces)
    ensures Scan(START, Text(pieces)) == Tokens(Words(pieces))
  {
    TokenizeFollowsTheGrammar(pieces, Complete);
    assert Text(pieces) + TailText(Complete) == Text(pieces);
  }

  lemma {:induction false} SpacePiece(space: char)
    ensures Text([Plain(space)]) == [space]
  {
    assert [Plain(space)][1..] == [];
  }

  /** Two commands with white space between them give the words of both, one after the other. */
  lemma {:induction false} JoinedCommands(a: string, space: char, b: string)
    requires IsSpace(space) && Scan(START, a).Tokens? && Scan(START, b).Tokens?
    ensures Scan(START, a + [space] + b) == Tokens(Scan(START, a).tokens + Scan(START, b).tokens)
  {
    var p := ReadCommand(a);
    var q := ReadCommand(b);
    var tail := [Plain(space)] + q;
    TextJoins(p, tail);
    TextJoins([Plain(space)], q);
    SpacePiece(space);
    assert Text(p + tail) == a + [space] + b;
    assert tail != [] && Separator(tail[0]) && tail[1..] == q && Words(tail) == Words(q);
    assert Valid(p + tail);
    hide Scan, Text, Words, Valid, ValidPiece, Separator, IsSpace;
    WordsJoin(p, tail);
    TokenizePieces(p + tail);
  }

  /** A token with a backslash before each character, or two single quotes for the empty token. */
  function Quote(token: string): string {
    if token == "" then "''" else EscapeAll(token)
  }

  function EscapeAll(token: string): string {
    if token == "" then "" else ['\\', token[0]] + EscapeAll(token[1..])
  }

  function Join(tokens: seq<string>): string {
    if tokens == [] then ""
    else if |tokens| == 1 then Quote(tokens[0])
    else Quote(tokens[0]) + [' '] + Join(tokens[1..])
  }

  lemma {:induction false} EscapedScan(s: State, token: string)
    requires s.mode == Out
    ensures Scan(s, EscapeAll(token)) == Tokens(Flush(if token == "" then s else Push(s, token)).tokens)
    decreases |token|
  {
    if token != "" {
      var s1 := Push(s, [token[0]]);
      ScanPiece(s, Escaped(token[0]), EscapeAll(token[1..]));
      EscapedScan(s1, token[1..]);
      assert s.current + [token[0]] + token[1..] == s.current + token;
      if |token| == 1 { assert [token[0]] == token; }
    }
  }

  lemma {:induction false} QuotedScan(token: string)
    ensures Scan(START, Quote(token)) == Tokens([token])
  {
    if token == "" {
      ScanPiece(START, SingleQuoted(""), "");
      assert PieceText(SingleQuoted("")) + "" == "''";
    } else {
      EscapedScan(START, token);
      assert "" + token == token;
    }
  }

  /** Round trip: a quoted and joined token list tokenizes back to itself. */
  lemma {:induction false} QuotedTokensComeBack(tokens: seq<string>)
    ensures Scan(START, Join(tokens)) == Tokens(tokens)
  {
    if tokens != [] {
      QuotedScan(tokens[0]);
      if |tokens| > 1 {
        QuotedTokensComeBack(tokens[1..]);
        JoinedCommands(Quote(tokens[0]), ' ', Join(tokens[1..]));
        assert [tokens[0]] + tokens[1..] == tokens;
      } else {
        assert tokens == [tokens[0]];
      }
    }
  }
}
