/**
 * A reader of JSON text (RFC 8259), written from the grammar of the standard and not from the writer of `Canonical`, and the proof
 * that it reads each canonical text back as the value that was written.
 */
module JsonReader {
  import opened Wrappers
  import opened Canonical

  // ----- the reader

  datatype Read<T> = Read(value: T, rest: string)

  function SkipSpace(s: string): (rest: string)
    ensures |rest| <= |s|
  {
    if s != "" && (s[0] == ' ' || s[0] == '\t' || s[0] == '\n' || s[0] == '\r') then SkipSpace(s[1..]) else s
  }

  /** The text after a token, if the text starts with it. */
  function After(s: string, token: string): (rest: Option<string>)
    ensures rest.Some? ==> |rest.value| == |s| - |token|
  {
    if token <= s then Some(s[|token|..]) else None
  }

  function HexValue(c: char): Option<nat> {
    if '0' <= c <= '9' then Some(c as nat - '0' as nat)
    else if 'a' <= c <= 'f' then Some(c as nat - 'a' as nat + 10)
    else if 'A' <= c <= 'F' then Some(c as nat - 'A' as nat + 10)
    else None
  }

  /** The character that four hexadecimal digits name. A surrogate is no character. */
  function Unicode(s: string): Option<char> {
    if |s| < 4 then None
    else
      match (HexValue(s[0]), HexValue(s[1]), HexValue(s[2]), HexValue(s[3]))
      case (Some(a), Some(b), Some(c), Some(d)) =>
        var n := ((a * 16 + b) * 16 + c) * 16 + d;
        if n < 0xD800 || 0xE000 <= n < 0x10000 then Some(n as char) else None
      case _ => None
  }

  /** One character of a string: itself, or what its escape stands for. */
  function ReadChar(s: string): (r: Option<Read<char>>)
    ensures r.Some? ==> |r.value.rest| < |s|
  {
    if s == "" || s[0] == '"' || s[0] < ' ' then None
    else if s[0] != '\\' then Some(Read(s[0], s[1..]))
    else if |s| < 2 then None
    else
      match s[1]
      case '"' => Some(Read('"', s[2..]))
      case '\\' => Some(Read('\\', s[2..]))
      case '/' => Some(Read('/', s[2..]))
      case 'b' => Some(Read('\U{08}', s[2..]))
      case 'f' => Some(Read('\U{0C}', s[2..]))
      case 'n' => Some(Read('\n', s[2..]))
      case 'r' => Some(Read('\r', s[2..]))
      case 't' => Some(Read('\t', s[2..]))
      case 'u' =>
        (match Unicode(s[2..])
         case Some(c) => Some(Read(c, s[6..]))
         case None => None)
      case _ => None
  }

  /** The characters up to the closing quote. */
  function ReadChars(s: string): (r: Option<Read<string>>)
    ensures r.Some? ==> |r.value.rest| < |s|
    decreases |s|
  {
    if s == "" then None
    else if s[0] == '"' then Some(Read("", s[1..]))
    else
      match ReadChar(s)
      case None => None
      case Some(Read(c, rest)) =>
        match ReadChars(rest)
        case None => None
        case Some(Read(more, last)) => Some(Read([c] + more, last))
  }

  /** How many characters of a number stand at the start. */
  function NumberLength(s: string): (n: nat)
    ensures n <= |s|
  {
    if s != "" && NumChar(s[0]) then 1 + NumberLength(s[1..]) else 0
  }

  function ReadValue(text: string): (r: Option<Read<Json>>)
    ensures r.Some? ==> |r.value.rest| < |text|
    decreases |text|, 0
  {
    var s := SkipSpace(text);
    if s == "" then None
    else
      match s[0]
      case 'n' => (match After(s, "null") case Some(rest) => Some(Read(JNull, rest)) case None => None)
      case 't' => (match After(s, "true") case Some(rest) => Some(Read(JBool(true), rest)) case None => None)
      case 'f' => (match After(s, "false") case Some(rest) => Some(Read(JBool(false), rest)) case None => None)
      case '"' => (match ReadChars(s[1..]) case Some(Read(t, rest)) => Some(Read(JStr(t), rest)) case None => None)
      case '[' =>
        var inner := SkipSpace(s[1..]);
        if inner != "" && inner[0] == ']' then Some(Read(JArr([]), inner[1..]))
        else (match ReadItems(s[1..]) case Some(Read(items, rest)) => Some(Read(JArr(items), rest)) case None => None)
      case '{' =>
        var inner := SkipSpace(s[1..]);
        if inner != "" && inner[0] == '}' then Some(Read(JObj([]), inner[1..]))
        else (match ReadFields(s[1..]) case Some(Read(fields, rest)) => Some(Read(JObj(fields), rest)) case None => None)
      case _ =>
        var n := NumberLength(s);
        if n > 0 && NumText(s[..n]) then Some(Read(JNum(s[..n]), s[n..])) else None
  }

  /** One or more values with commas between them, and the closing bracket. */
  function ReadItems(text: string): (r: Option<Read<seq<Json>>>)
    ensures r.Some? ==> |r.value.rest| < |text|
    decreases |text|, 1
  {
    match ReadValue(text)
    case None => None
    case Some(Read(v, rest)) =>
      var s := SkipSpace(rest);
      if s == "" then None
      else if s[0] == ']' then Some(Read([v], s[1..]))
      else if s[0] == ',' then
        match ReadItems(s[1..])
        case None => None
        case Some(Read(more, last)) => Some(Read([v] + more, last))
      else None
  }

  /** A name, a colon and a value. */
  function ReadField(text: string): (r: Option<Read<Field>>)
    ensures r.Some? ==> |r.value.rest| < |text|
    decreases |text|, 1
  {
    var s := SkipSpace(text);
    if s == "" || s[0] != '"' then None
    else
      match ReadChars(s[1..])
      case None => None
      case Some(Read(name, after)) =>
        var colon := SkipSpace(after);
        if colon == "" || colon[0] != ':' then None
        else
          match ReadValue(colon[1..])
          case None => None
          case Some(Read(v, rest)) => Some(Read(Field(name, v), rest))
  }

  function ReadFields(text: string): (r: Option<Read<seq<Field>>>)
    ensures r.Some? ==> |r.value.rest| < |text|
    decreases |text|, 2
  {
    match ReadField(text)
    case None => None
    case Some(Read(f, rest)) =>
      var s := SkipSpace(rest);
      if s == "" then None
      else if s[0] == '}' then Some(Read([f], s[1..]))
      else if s[0] == ',' then
        match ReadFields(s[1..])
        case None => None
        case Some(Read(more, last)) => Some(Read([f] + more, last))
      else None
  }

  /** The value of a whole text. */
  function Parse(text: string): Option<Json> {
    match ReadValue(text)
    case Some(Read(v, rest)) => if SkipSpace(rest) == "" then Some(v) else None
    case None => None
  }

  // ----- the reader reads what was written

  lemma {:induction false} ReadsEscaped(c: char, rest: string)
    ensures ReadChar(Escaped(c) + rest) == Some(Read(c, rest))
    ensures Escaped(c) != "" && Escaped(c)[0] != '"'
  {
    var e := Escaped(c);
    var s := e + rest;
    assert s[0] == e[0] && s[|e|..] == rest;
    if |e| >= 2 { assert s[1] == e[1]; }
    if |e| == 6 { ReadsUnicode(c, s, rest); }
  }

  lemma {:induction false} ReadsUnicode(c: char, s: string, rest: string)
    requires c < ' ' && s == ['\\', 'u', '0', '0', HexDigit(c as nat / 16), HexDigit(c as nat % 16)] + rest
    ensures Unicode(s[2..]) == Some(c)
  {
    var t := s[2..];
    assert t[0] == '0' && t[1] == '0' && t[2] == HexDigit(c as nat / 16) && t[3] == HexDigit(c as nat % 16);
    HexReads(c as nat / 16);
    HexReads(c as nat % 16);
  }

  lemma HexReads(n: nat)
    requires n < 16
    ensures HexValue(HexDigit(n)) == Some(n)
  {
  }

  lemma {:induction false} ReadsChars(s: string, rest: string)
    ensures ReadChars(StrTail(s, rest)) == Some(Read(s, rest))
    decreases |s|
  {
    if s == "" {
      assert ("\"" + rest)[1..] == rest;
    } else {
      var tail := StrTail(s[1..], rest);
      ReadsEscaped(s[0], tail);
      ReadsChars(s[1..], rest);
      assert StrTail(s, rest)[0] == Escaped(s[0])[0];
      assert [s[0]] + s[1..] == s;
    }
  }

  lemma {:induction false} NumberEnds(text: string, rest: string)
    requires (forall i :: 0 <= i < |text| ==> NumChar(text[i])) && Delimited(rest)
    ensures NumberLength(text + rest) == |text|
  {
    if text == "" {
      assert text + rest == rest;
    } else {
      assert (text + rest)[1..] == text[1..] + rest;
      NumberEnds(text[1..], rest);
    }
  }

  lemma NoSpace(s: string)
    requires s != "" && s[0] > ' '
    ensures SkipSpace(s) == s
  {
  }

  lemma {:induction false} ReadsNumber(text: string, rest: string)
    requires NumText(text) && Delimited(rest)
    ensures ReadValue(text + rest) == Some(Read(JNum(text), rest))
  {
    var s := text + rest;
    assert s[0] == text[0];
    NoSpace(s);
    NumberEnds(text, rest);
    assert s[..|text|] == text && s[|text|..] == rest;
  }

  /** Every value reads back from its text, whatever follows that is no part of a number. */
  lemma {:induction false} ReadsBack(v: Json, rest: string)
    requires Written(v) && Delimited(rest)
    ensures ReadValue(TextThen(v, rest)) == Some(Read(v, rest))
    decreases v, 1
  {
    var text := TextThen(v, rest);
    FirstChar(v, rest);
    NoSpace(text);
    match v {
      case JNull => assert text[4..] == rest && "null" <= text;
      case JBool(b) => if b { assert text[4..] == rest && "true" <= text; } else { assert text[5..] == rest && "false" <= text; }
      case JNum(t) => ReadsNumber(t, rest);
      case JStr(s) =>
        assert text[1..] == StrTail(s, rest);
        ReadsChars(s, rest);
      case JArr(items) =>
        if items == [] {
          assert text[1..] == "]" + rest && text[1..][1..] == rest;
        } else {
          var inner := TextThen(items[0], ArrTail(items[1..], rest));
          assert text[1..] == inner;
          FirstChar(items[0], ArrTail(items[1..], rest));
          NoSpace(inner);
          ReadsItems(items, rest);
        }
      case JObj(fields) =>
        if fields == [] {
          assert text[1..] == "}" + rest && text[1..][1..] == rest;
        } else {
          var inner := FieldText(fields[0], TextThen(fields[0].value, ObjTail(fields[1..], rest)));
          assert text[1..] == inner && inner[0] == '"';
          NoSpace(inner);
          ReadsFields(fields, rest);
        }
    }
  }

  lemma LastItem(text: string, v: Json, rest: string)
    requires ReadValue(text) == Some(Read(v, "]" + rest))
    ensures ReadItems(text) == Some(Read([v], rest))
  {
    NoSpace("]" + rest);
    assert ("]" + rest)[1..] == rest;
  }

  lemma NextItem(text: string, v: Json, next: string, more: seq<Json>, rest: string)
    requires ReadValue(text) == Some(Read(v, "," + next)) && ReadItems(next) == Some(Read(more, rest))
    ensures ReadItems(text) == Some(Read([v] + more, rest))
  {
    NoSpace("," + next);
    assert ("," + next)[1..] == next;
  }

  lemma {:induction false} ReadsItems(items: seq<Json>, rest: string)
    requires items != [] && WrittenItems(items) && Delimited(rest)
    ensures ReadItems(TextThen(items[0], ArrTail(items[1..], rest))) == Some(Read(items, rest))
    decreases items, 0
  {
    var more, tail := items[1..], ArrTail(items[1..], rest);
    var text := TextThen(items[0], tail);
    assert Delimited(tail) && Written(items[0]) && WrittenItems(more) && items == [items[0]] + more;
    ReadsBack(items[0], tail);
    if more == [] {
      assert tail == "]" + rest && items == [items[0]];
      LastItem(text, items[0], rest);
    } else {
      var next := TextThen(more[0], ArrTail(more[1..], rest));
      assert tail == "," + next;
      hide ReadItems, ReadValue, TextThen, ArrTail, Written;
      ReadsItems(more, rest);
      NextItem(text, items[0], next, more, rest);
    }
  }

  lemma {:induction false} ReadsField(f: Field, rest: string)
    requires Written(f.value) && Delimited(rest)
    ensures ReadField(FieldText(f, TextThen(f.value, rest))) == Some(Read(f, rest))
    decreases f, 2
  {
    var value := TextThen(f.value, rest);
    var text := FieldText(f, value);
    assert text[0] == '"' && text[1..] == StrTail(f.name, ":" + value);
    NoSpace(text);
    ReadsChars(f.name, ":" + value);
    NoSpace(":" + value);
    assert (":" + value)[1..] == value;
    ReadsBack(f.value, rest);
  }

  lemma LastField(text: string, f: Field, rest: string)
    requires ReadField(text) == Some(Read(f, "}" + rest))
    ensures ReadFields(text) == Some(Read([f], rest))
  {
    NoSpace("}" + rest);
    assert ("}" + rest)[1..] == rest;
  }

  lemma NextField(text: string, f: Field, next: string, more: seq<Field>, rest: string)
    requires ReadField(text) == Some(Read(f, "," + next)) && ReadFields(next) == Some(Read(more, rest))
    ensures ReadFields(text) == Some(Read([f] + more, rest))
  {
    NoSpace("," + next);
    assert ("," + next)[1..] == next;
  }

  lemma {:induction false} ReadsFields(fields: seq<Field>, rest: string)
    requires fields != [] && WrittenFields(fields) && Delimited(rest)
    ensures ReadFields(FieldText(fields[0], TextThen(fields[0].value, ObjTail(fields[1..], rest)))) == Some(Read(fields, rest))
    decreases fields, 0
  {
    var f, more, tail := fields[0], fields[1..], ObjTail(fields[1..], rest);
    var text := FieldText(f, TextThen(f.value, tail));
    assert Delimited(tail) && Written(f.value) && WrittenFields(more) && fields == [f] + more;
    ReadsField(f, tail);
    if more == [] {
      assert tail == "}" + rest && fields == [f];
      LastField(text, f, rest);
    } else {
      var next := FieldText(more[0], TextThen(more[0].value, ObjTail(more[1..], rest)));
      assert tail == "," + next;
      hide ReadFields, ReadField, FieldText, TextThen, ObjTail, Written;
      ReadsFields(more, rest);
      NextField(text, f, next, more, rest);
    }
  }

  /** The writer takes the shortest text that reads as the character, with small hexadecimal digits. */
  lemma {:induction false} EscapesAreShortest(c: char, e: string, rest: string)
    requires ReadChar(e + rest) == Some(Read(c, rest))
    ensures |Escaped(c)| <= |e|
    ensures |Escaped(c)| == 6 ==> forall i :: 0 <= i < 6 ==> !('A' <= Escaped(c)[i] <= 'F')
  {
    var s := e + rest;
    assert |e| > 0 && s[0] == e[0];
    if |e| >= 2 { assert s[1] == e[1]; }
    assert |s| - |rest| == |e|;
  }

  /** The text of a value parses to that value. */
  lemma {:induction false} TextParsesBack(v: Json)
    requires Written(v)
    ensures Parse(Text(v)) == Some(v)
  {
    ReadsBack(v, "");
  }
}
