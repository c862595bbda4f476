/**
 * The reader of a vitest JSON report in a noisy stdout: the scanner that cuts out the top-level objects,
 * and the verdict on one parsed document. JSON parsing itself is a function that the caller gives.
 */
module SuiteReports {
  import opened Texts
  import opened Wrappers

  // ----- JSON texts, after sections 2 to 7 of RFC 8259

  datatype SChar = Unescaped(c: char) | Escape(c: char) | Unicode(hex: string)

  datatype Value =
    | Scalar(text: string)
    | Str(chars: seq<SChar>)
    | Arr(ws: string, entries: seq<Entry>)
    | Obj(ws: string, entries: seq<Entry>)

  /** What stands before a value in an array or in an object: white space, or a member name and a colon. */
  datatype Head = Space(ws: string) | Named(before: string, name: seq<SChar>, colonBefore: string, colonAfter: string)

  datatype Entry = Entry(head: Head, value: Value, after: string)

  predicate JsonSpace(s: string) {
    forall i :: 0 <= i < |s| ==> s[i] in " \t\n\r"
  }

  predicate Hex(s: string) {
    |s| == 4 && forall i :: 0 <= i < 4 ==> '0' <= s[i] <= '9' || 'a' <= s[i] <= 'f' || 'A' <= s[i] <= 'F'
  }

  predicate ValidChars(chars: seq<SChar>) {
    forall i :: 0 <= i < |chars| ==>
      match chars[i]
      case Unescaped(c) => c >= ' ' && c != '"' && c != '\\'
      case Escape(c) => c in "\"\\/bfnrt"
      case Unicode(hex) => Hex(hex)
  }

  /** A number or one of the three literal names: it has no quote and no brace. */
  predicate ScalarText(s: string) {
    s != "" && forall i :: 0 <= i < |s| ==> '0' <= s[i] <= '9' || 'a' <= s[i] <= 'z' || s[i] in "-+.E"
  }

  predicate Valid(v: Value)
    decreases v
  {
    match v
    case Scalar(text) => ScalarText(text)
    case Str(chars) => ValidChars(chars)
    case Arr(ws, entries) => JsonSpace(ws) && ValidEntries(entries, false)
    case Obj(ws, entries) => JsonSpace(ws) && ValidEntries(entries, true)
  }

  predicate ValidEntries(entries: seq<Entry>, named: bool)
    decreases entries
  {
    |entries| == 0 || (
      && entries[0].head.Named? == named && ValidHead(entries[0].head) && JsonSpace(entries[0].after)
      && Valid(entries[0].value) && ValidEntries(entries[1..], named))
  }

  predicate ValidHead(h: Head) {
    match h
    case Space(ws) => JsonSpace(ws)
    case Named(before, name, colonBefore, colonAfter) =>
      JsonSpace(before) && ValidChars(name) && JsonSpace(colonBefore) && JsonSpace(colonAfter)
  }

  function CharText(c: SChar): string {
    match c
    case Unescaped(x) => [x]
    case Escape(x) => ['\\', x]
    case Unicode(hex) => "\\u" + hex
  }

  function CharsText(chars: seq<SChar>): string {
    if |chars| == 0 then "" else CharText(chars[0]) + CharsText(chars[1..])
  }

  function Quoted(chars: seq<SChar>): string {
    "\"" + (CharsText(chars) + "\"")
  }

  function Text(v: Value): string
    decreases v
  {
    match v
    case Scalar(text) => text
    case Str(chars) => Quoted(chars)
    case Arr(ws, entries) => Bracketed(ws + EntriesText(entries))
    case Obj(ws, entries) => Braced(ws + EntriesText(entries))
  }

  function Bracketed(mid: string): string {
    "[" + (mid + "]")
  }

  function Braced(mid: string): string {
    "{" + (mid + "}")
  }

  function HeadText(h: Head): string {
    match h
    case Space(ws) => ws
    case Named(before, name, colonBefore, colonAfter) => before + Quoted(name) + (colonBefore + ":" + colonAfter)
  }

  function EntriesText(entries: seq<Entry>): string
    decreases entries
  {
    if |entries| == 0 then ""
    else EntryText(entries[0], Text(entries[0].value), if |entries| > 1 then "," else "", EntriesText(entries[1..]))
  }

  function EntryText(e: Entry, value: string, comma: string, rest: string): string {
    HeadText(e.head) + value + (e.after + comma) + rest
  }

  // ----- the scanner

  datatype Scanner = Scanner(depth: nat, start: Option<nat>, inString: bool, escaped: bool, spans: seq<string>)

  const START := Scanner(0, None, false, false, [])

  function Slice(text: string, lo: nat, hi: nat): string {
    if lo <= hi <= |text| then text[lo..hi] else ""
  }

  function Step(s: Scanner, text: string, i: nat, ch: char): Scanner {
    if s.inString then
      if s.escaped then s.(escaped := false)
      else if ch == '\\' then s.(escaped := true)
      else if ch == '"' then s.(inString := false)
      else s
    else if ch == '"' then s.(inString := true)
    else if ch == '{' then s.(depth := s.depth + 1, start := if s.depth == 0 then Some(i) else s.start)
    else if ch == '}' then
      if s.depth == 0 then s
      else if s.depth == 1 && s.start.Some? then
        s.(depth := 0, start := None, spans := s.spans + [Slice(text, s.start.value, i + 1)])
      else s.(depth := s.depth - 1)
    else s
  }

  /** The scanner after a chunk that starts at index `i` of the text. */
  function Feed(s: Scanner, text: string, i: nat, chunk: string): Scanner
    decreases |chunk|
  {
    if chunk == "" then s
    else
      var n := |chunk| - 1;
      Step(Feed(s, text, i, chunk[..n]), text, i + n, chunk[n])
  }

  /** The spans from the last to the first, without the whole text. */
  function Reversed(spans: seq<string>, whole: string): seq<string> {
    if spans == [] then []
    else (if spans[|spans| - 1] == whole then [] else [spans[|spans| - 1]]) + Reversed(spans[..|spans| - 1], whole)
  }

  function Candidates(raw: string): seq<string> {
    var text := Trim(raw);
    if text == "" then [] else [text] + Reversed(Feed(START, text, 0, text).spans, text)
  }

  lemma {:induction false} ReversedStep(found: seq<string>, spans: seq<string>, k: nat, whole: string)
    requires k < |spans|
    ensures found + Reversed(spans[..k + 1], whole) ==
              (if spans[k] == whole then found else found + [spans[k]]) + Reversed(spans[..k], whole)
  {
    var some := spans[..k + 1];
    assert some[..k] == spans[..k] && some[k] == spans[k];
  }

  method VitestJsonCandidates(raw: string) returns (candidates: seq<string>)
    ensures candidates == Candidates(raw)
  {
    var trimmed := Trim(raw);
    if trimmed == "" { return []; }
    var spans := TopLevelSpans(trimmed);
    candidates := [trimmed];
    assert spans[..|spans|] == spans && Candidates(raw) == [trimmed] + Reversed(spans, trimmed);
    hide Feed, Candidates, Trim;
    var k := |spans|;
    while k > 0
      invariant 0 <= k <= |spans|
      invariant candidates + Reversed(spans[..k], trimmed) == [trimmed] + Reversed(spans, trimmed)
    {
      k := k - 1;
      ReversedStep(candidates, spans, k, trimmed);
      hide Reversed;
      if spans[k] != trimmed {
        candidates := candidates + [spans[k]];
      }
    }
  }

  /** The complete top-level objects of the trimmed stream, first to last: the first loop of the generator. */
  method TopLevelSpans(trimmed: string) returns (spans: seq<string>)
    ensures spans == Feed(START, trimmed, 0, trimmed).spans
  {
    spans := [];
    var depth: nat, start, inString, escaped := 0, -1, false, false;
    var i := 0;
    assert trimmed[..0] == "" && Feed(START, trimmed, 0, "") == START;
    hide Feed;
    while i < |trimmed|
      invariant 0 <= i <= |trimmed| && -1 <= start <= i
      invariant escaped ==> inString
      invariant Scanner(depth, if start < 0 then None else Some(start), inString, escaped, spans)
             == Feed(START, trimmed, 0, trimmed[..i])
    {
      var ch := trimmed[i];
      FeedThen(START, trimmed, 0, trimmed[..i], ch);
      assert trimmed[..i + 1] == trimmed[..i] + [ch];
      i := i + 1;
      if inString {
        if escaped { escaped := false; }
        else if ch == '\\' { escaped := true; }
        else if ch == '"' { inString := false; }
        continue;
      }
      if ch == '"' {
        inString := true;
        continue;
      }
      if ch == '{' {
        if depth == 0 { start := i - 1; }
        depth := depth + 1;
        continue;
      }
      if ch == '}' {
        if depth == 0 { continue; }
        depth := depth - 1;
        if depth == 0 && start >= 0 {
          spans := spans + [trimmed[start..i]];
          start := -1;
        }
      }
    }
    assert trimmed[..|trimmed|] == trimmed;
  }

  // ----- the scanner over a JSON text

  lemma {:induction false} FeedJoins(s: Scanner, text: string, i: nat, a: string, b: string)
    ensures Feed(s, text, i, a + b) == Feed(Feed(s, text, i, a), text, i + |a|, b)
    decreases |b|
  {
    if b == "" {
      assert a + b == a;
    } else {
      var n := |b| - 1;
      FeedJoins(s, text, i, a, b[..n]);
      assert (a + b)[..|a| + n] == a + b[..n] && (a + b)[|a| + n] == b[n];
    }
  }

  lemma {:induction false} FeedThen(s: Scanner, text: string, i: nat, chunk: string, ch: char)
    ensures Feed(s, text, i, chunk + [ch]) == Step(Feed(s, text, i, chunk), text, i + |chunk|, ch)
  {
    assert (chunk + [ch])[..|chunk|] == chunk;
  }

  lemma {:induction false} FeedOne(s: Scanner, text: string, i: nat, ch: char)
    ensures Feed(s, text, i, [ch]) == Step(s, text, i, ch)
  {
    assert [ch][..0] == [] && Feed(s, text, i, [ch][..0]) == s;
  }

  /** Characters on which the scanner, in the state it is in, does not act. */
  lemma {:induction false} FeedIdle(s: Scanner, text: string, i: nat, chunk: string)
    requires !s.escaped
    requires forall k :: 0 <= k < |chunk| ==>
               if s.inString then chunk[k] != '"' && chunk[k] != '\\'
               else chunk[k] != '"' && (s.depth > 0 ==> chunk[k] != '}') && chunk[k] != '{'
    ensures Feed(s, text, i, chunk) == s
    decreases |chunk|
  {
    if chunk != "" {
      FeedIdle(s, text, i, chunk[..|chunk| - 1]);
    }
  }

  lemma {:induction false} FeedChar(s: Scanner, text: string, i: nat, c: SChar)
    requires s.inString && !s.escaped && ValidChars([c])
    ensures Feed(s, text, i, CharText(c)) == s
  {
    assert [c][0] == c;
    match c {
      case Unescaped(x) => FeedIdle(s, text, i, [x]);
      case Escape(x) => FeedEscape(s, text, i, x);
      case Unicode(hex) =>
        FeedEscape(s, text, i, 'u');
        assert "\\u" == "\\" + "u";
        FeedJoins(s, text, i, "\\" + "u", hex);
        FeedIdle(s, text, i + 2, hex);
    }
  }

  lemma {:induction false} FeedEscape(s: Scanner, text: string, i: nat, x: char)
    requires s.inString && !s.escaped
    ensures Feed(s, text, i, "\\" + [x]) == s && "\\" + [x] == ['\\', x]
  {
    FeedOne(s, text, i, '\\');
    FeedOne(s.(escaped := true), text, i + 1, x);
    FeedJoins(s, text, i, "\\", [x]);
  }

  lemma {:induction false} FeedChars(s: Scanner, text: string, i: nat, chars: seq<SChar>)
    requires s.inString && !s.escaped && ValidChars(chars)
    ensures Feed(s, text, i, CharsText(chars)) == s
    decreases |chars|
  {
    if chars != [] {
      FeedChar(s, text, i, chars[0]);
      FeedJoins(s, text, i, CharText(chars[0]), CharsText(chars[1..]));
      FeedChars(s, text, i + |CharText(chars[0])|, chars[1..]);
    }
  }

  /** The scanner is inside an object and outside every string. */
  predicate Inside(s: Scanner) {
    s.depth > 0 && !s.inString && !s.escaped
  }

  /** Inside an object, the chunk leaves the scanner as it was. */
  ghost predicate Neutral(chunk: string) {
    forall s: Scanner, text: string, i: nat :: Inside(s) ==> Feed(s, text, i, chunk) == s
  }

  predicate Quiet(chunk: string) {
    forall i :: 0 <= i < |chunk| ==> chunk[i] != '"' && chunk[i] != '{' && chunk[i] != '}'
  }

  lemma {:induction false} NeutralQuiet(chunk: string)
    requires Quiet(chunk)
    ensures Neutral(chunk)
  {
    forall s: Scanner, text: string, i: nat | Inside(s) ensures Feed(s, text, i, chunk) == s {
      FeedIdle(s, text, i, chunk);
    }
  }

  lemma {:induction false} NeutralJoin(a: string, b: string)
    requires Neutral(a) && Neutral(b)
    ensures Neutral(a + b)
  {
    forall s: Scanner, text: string, i: nat | Inside(s) ensures Feed(s, text, i, a + b) == s {
      FeedJoins(s, text, i, a, b);
    }
  }

  lemma {:induction false} FeedOpen(s: Scanner, text: string, i: nat, open: char, mid: string)
    ensures Feed(s, text, i, [open] + mid) == Feed(Step(s, text, i, open), text, i + 1, mid)
  {
    FeedJoins(s, text, i, [open], mid);
    FeedOne(s, text, i, open);
  }

  lemma {:induction false} FeedClose(s: Scanner, text: string, i: nat, chunk: string, inner: Scanner, close: char)
    requires Feed(s, text, i, chunk) == inner
    ensures Feed(s, text, i, chunk + [close]) == Step(inner, text, i + |chunk|, close)
  {
    FeedThen(s, text, i, chunk, close);
  }

  /** A chunk between two characters, where the chunk leaves the scanner as it was. */
  lemma {:induction false} FeedWrapped(s: Scanner, text: string, i: nat, open: char, mid: string, close: char)
    requires Feed(Step(s, text, i, open), text, i + 1, mid) == Step(s, text, i, open)
    ensures Feed(s, text, i, [open] + (mid + [close])) == Step(Step(s, text, i, open), text, i + 1 + |mid|, close)
  {
    FeedOpen(s, text, i, open, mid + [close]);
    FeedClose(Step(s, text, i, open), text, i + 1, mid, Step(s, text, i, open), close);
  }

  lemma {:induction false} NeutralQuoted(chars: seq<SChar>)
    requires ValidChars(chars)
    ensures Neutral(Quoted(chars))
  {
    var mid := CharsText(chars);
    forall s: Scanner, text: string, i: nat | Inside(s) ensures Feed(s, text, i, Quoted(chars)) == s {
      FeedChars(s.(inString := true), text, i + 1, chars);
      FeedWrapped(s, text, i, '"', mid, '"');
    }
  }

  lemma {:induction false} NeutralBraced(mid: string)
    requires Neutral(mid)
    ensures Neutral(Braced(mid))
  {
    forall s: Scanner, text: string, i: nat | Inside(s) ensures Feed(s, text, i, Braced(mid)) == s {
      assert Inside(Step(s, text, i, '{'));
      FeedWrapped(s, text, i, '{', mid, '}');
    }
  }

  lemma {:induction false} NeutralBracketed(mid: string)
    requires Neutral(mid)
    ensures Neutral(Bracketed(mid))
  {
    forall s: Scanner, text: string, i: nat | Inside(s) ensures Feed(s, text, i, Bracketed(mid)) == s {
      FeedWrapped(s, text, i, '[', mid, ']');
    }
  }

  lemma {:induction false} NeutralHead(h: Head)
    requires ValidHead(h)
    ensures Neutral(HeadText(h))
  {
    match h
    case Space(ws) => NeutralQuiet(ws);
    case Named(before, name, colonBefore, colonAfter) =>
      NeutralQuiet(before);
      NeutralQuoted(name);
      NeutralQuiet(colonBefore + ":" + colonAfter);
      NeutralJoin(before, Quoted(name));
      NeutralJoin(before + Quoted(name), colonBefore + ":" + colonAfter);
  }

  lemma {:induction false} NeutralEntry(e: Entry, value: string, comma: string, rest: string)
    requires ValidHead(e.head) && JsonSpace(e.after) && Quiet(comma) && Neutral(value) && Neutral(rest)
    ensures Neutral(EntryText(e, value, comma, rest))
  {
    NeutralHead(e.head);
    NeutralJoin(HeadText(e.head), value);
    NeutralQuiet(e.after + comma);
    NeutralJoin(HeadText(e.head) + value, e.after + comma);
    NeutralJoin(HeadText(e.head) + value + (e.after + comma), rest);
  }

  lemma {:induction false} NeutralItems(ws: string, items: string)
    requires JsonSpace(ws) && Neutral(items)
    ensures Neutral(Bracketed(ws + items)) && Neutral(Braced(ws + items))
  {
    NeutralQuiet(ws);
    NeutralJoin(ws, items);
    NeutralBraced(ws + items);
    NeutralBracketed(ws + items);
  }

  /** Inside an object, a whole JSON value leaves the scanner as it was. */
  lemma {:induction false} NeutralValue(v: Value)
    requires Valid(v)
    ensures Neutral(Text(v))
    decreases v, 0
  {
    match v
    case Scalar(text) => NeutralQuiet(text);
    case Str(chars) => NeutralQuoted(chars);
    case Arr(ws, entries) =>
      NeutralEntries(entries, false);
      NeutralItems(ws, EntriesText(entries));
    case Obj(ws, entries) =>
      NeutralEntries(entries, true);
      NeutralItems(ws, EntriesText(entries));
  }

  lemma {:induction false} NeutralEntries(entries: seq<Entry>, named: bool)
    requires ValidEntries(entries, named)
    ensures Neutral(EntriesText(entries))
    decreases entries, 1
  {
    if |entries| == 0 {
      NeutralQuiet("");
    } else {
      var e := entries[0];
      NeutralValue(e.value);
      NeutralEntries(entries[1..], named);
      NeutralEntry(e, Text(e.value), if |entries| > 1 then "," else "", EntriesText(entries[1..]));
    }
  }

  /** At the top level, an object of neutral contents becomes one span. */
  lemma {:induction false} FeedObject(s: Scanner, text: string, i: nat, mid: string)
    requires Neutral(mid) && s.depth == 0 && !s.inString && !s.escaped
    ensures Feed(s, text, i, Braced(mid))
         == s.(start := None, spans := s.spans + [Slice(text, i, i + |Braced(mid)|)])
  {
    assert Inside(Step(s, text, i, '{'));
    FeedWrapped(s, text, i, '{', mid, '}');
  }

  // ----- the object is a candidate

  predicate Preamble(s: string) {
    forall i :: 0 <= i < |s| ==> s[i] != '"' && s[i] != '{'
  }

  /** Spans are only ever added. */
  lemma {:induction false} SpansGrow(s: Scanner, text: string, i: nat, chunk: string)
    ensures s.spans <= Feed(s, text, i, chunk).spans
    decreases |chunk|
  {
    if chunk != "" {
      SpansGrow(s, text, i, chunk[..|chunk| - 1]);
    }
  }

  lemma {:induction false} TrimStartKeeps(pre: string, mid: string)
    requires mid != "" && !IsSpace(mid[0])
    ensures TrimStart(pre + mid) == TrimStart(pre) + mid
    ensures forall i :: 0 <= i < |TrimStart(pre)| ==> TrimStart(pre)[i] in pre
  {
    if pre == "" {
      assert pre + mid == mid;
    } else {
      assert (pre + mid)[0] == pre[0] && (pre + mid)[1..] == pre[1..] + mid;
      if IsSpace(pre[0]) {
        TrimStartKeeps(pre[1..], mid);
        assert forall c :: c in pre[1..] ==> c in pre;
      }
    }
  }

  lemma {:induction false} TrimEndKeeps(mid: string, post: string)
    requires mid != "" && !IsSpace(mid[|mid| - 1])
    ensures TrimEnd(mid + post) == mid + TrimEnd(post)
    decreases |post|
  {
    if post == "" {
      assert mid + post == mid;
    } else {
      var whole := mid + post;
      assert whole[|whole| - 1] == post[|post| - 1] && whole[..|whole| - 1] == mid + post[..|post| - 1];
      if IsSpace(post[|post| - 1]) { TrimEndKeeps(mid, post[..|post| - 1]); }
    }
  }

  lemma {:induction false} ReversedHas(spans: seq<string>, whole: string, span: string)
    requires span in spans && span != whole
    ensures span in Reversed(spans, whole)
  {
    if spans[|spans| - 1] != span {
      assert span in spans[..|spans| - 1];
      ReversedHas(spans[..|spans| - 1], whole, span);
    }
  }

  lemma ObjectEnds(v: Value)
    requires v.Obj?
    ensures |Text(v)| >= 2 && Text(v)[0] == '{' && Text(v)[|Text(v)| - 1] == '}'
  {
  }

  lemma {:induction false} TrimAround(pre: string, v: Value, post: string) returns (left: string, right: string)
    requires v.Obj? && Preamble(pre)
    ensures Trim(pre + Text(v) + post) == left + Text(v) + right && Preamble(left)
    ensures right == TrimEnd(post)
  {
    ObjectEnds(v);
    var t := Text(v);
    TrimStartKeeps(pre, t + post);
    left, right := TrimStart(pre), TrimEnd(post);
    assert pre + t + post == pre + (t + post);
    TrimEndKeeps(left + t, post);
    assert left + (t + post) == (left + t) + post;
  }

  /** A chunk that the scanner turns into one span, after a preamble: the scanner then holds that span. */
  lemma {:induction false} SpanIsFirst(left: string, t: string, right: string)
    requires Preamble(left)
    requires Feed(START, left + t + right, |left|, t)
          == START.(spans := [Slice(left + t + right, |left|, |left| + |t|)])
    ensures var text := left + t + right;
            Feed(START, text, 0, text) == Feed(START.(spans := [t]), text, |left| + |t|, right)
  {
    hide Feed;
    var text := left + t + right;
    FeedJoins(START, text, 0, left + t, right);
    FeedJoins(START, text, 0, left, t);
    FeedIdle(START, text, 0, left);
    assert Slice(text, |left|, |left| + |t|) == t;
  }

  /** It is among the spans, whatever follows. */
  lemma {:induction false} SpanStays(left: string, t: string, right: string)
    requires Preamble(left)
    requires Feed(START, left + t + right, |left|, t)
          == START.(spans := [Slice(left + t + right, |left|, |left| + |t|)])
    ensures t in Feed(START, left + t + right, 0, left + t + right).spans
  {
    var text := left + t + right;
    SpanIsFirst(left, t, right);
    SpansGrow(START.(spans := [t]), text, |left| + |t|, right);
    assert Feed(START, text, 0, text).spans[0] == t;
  }

  lemma {:induction false} NeutralContents(v: Value)
    requires v.Obj? && Valid(v)
    ensures Neutral(v.ws + EntriesText(v.entries))
  {
    NeutralEntries(v.entries, true);
    NeutralQuiet(v.ws);
    NeutralJoin(v.ws, EntriesText(v.entries));
  }

  /** After text with no brace that opens and no quote, a complete JSON object is always a candidate, whatever follows. */
  lemma {:induction false} ObjectIsACandidate(pre: string, v: Value, post: string)
    requires v.Obj? && Valid(v) && Preamble(pre)
    ensures Text(v) in Candidates(pre + Text(v) + post)
  {
    var t := Text(v);
    var left, right := TrimAround(pre, v, post);
    var text := left + t + right;
    NeutralContents(v);
    FeedObject(START, text, |left|, v.ws + EntriesText(v.entries));
    SpanStays(left, t, right);
    ObjectEnds(v);
    assert text != "" by { assert |text| >= |t|; }
    if t != text { ReversedHas(Feed(START, text, 0, text).spans, text, t); }
  }

  // ----- the verdict on one document

  datatype Json = JNull | JBool(b: bool) | JNumber(n: real) | JString(s: string) | JArray(items: seq<Json>) | JObject(fields: map<string, Json>)

  datatype Parse = Parse(passed: bool, failedSuites: real, failedTests: real, loadFailures: real, totalTests: real,
                         failCount: real, loadFailureFiles: seq<string>)

  function Field(j: Json, name: string): Option<Json> {
    if j.JObject? && name in j.fields then Some(j.fields[name]) else None
  }

  predicate IsNumber(j: Option<Json>) {
    j.Some? && j.value.JNumber?
  }

  function CountOf(j: Option<Json>): real {
    if IsNumber(j) && j.value.n >= 0.0 then j.value.n else 0.0
  }

  function Results(j: Json): seq<Json> {
    match Field(j, "testResults")
    case Some(JArray(items)) => items
    case _ => []
  }

  predicate FailedFile(r: Json) {
    r.JObject? && Field(r, "status") == Some(JString("failed"))
  }

  function Assertions(r: Json): nat {
    match Field(r, "assertionResults")
    case Some(JArray(items)) => |items|
    case _ => 0
  }

  /** A test file that failed and ran no assertion: it did not load. */
  predicate FailedToLoad(r: Json) {
    FailedFile(r) && Assertions(r) == 0
  }

  function NameOf(r: Json): string {
    match Field(r, "name")
    case Some(JString(s)) => s
    case _ => "<unknown>"
  }

  predicate IsReport(j: Json) {
    j.JObject? && (IsNumber(Field(j, "numFailedTests")) || IsNumber(Field(j, "numFailedTestSuites")) || IsNumber(Field(j, "numTotalTests")))
  }

  /** The names of the files that did not load, in order. */
  function LoadFailures(results: seq<Json>): seq<string> {
    if results == [] then []
    else
      var last := results[|results| - 1];
      LoadFailures(results[..|results| - 1]) + if FailedToLoad(last) then [NameOf(last)] else []
  }

  /** How many failed files ran at least one assertion. */
  function FailedAfterLoading(results: seq<Json>): nat {
    if results == [] then 0
    else
      var last := results[|results| - 1];
      FailedAfterLoading(results[..|results| - 1]) + if FailedFile(last) && !FailedToLoad(last) then 1 else 0
  }

  /** The suites that failed without a failed test: from the list of files, or from the counters when it shows none. */
  function LoadFailureCount(j: Json): real {
    var files := LoadFailures(Results(j));
    var suites := CountOf(Field(j, "numFailedTestSuites"));
    var explained := FailedAfterLoading(Results(j)) as real;
    if files != [] then |files| as real
    else if suites > explained then suites - explained
    else if suites > 0.0 && CountOf(Field(j, "numFailedTests")) == 0.0 then suites
    else 0.0
  }

  function Verdict(j: Json): Option<Parse> {
    if !IsReport(j) then None
    else
      var tests, loads := CountOf(Field(j, "numFailedTests")), LoadFailureCount(j);
      Some(Parse(tests + loads == 0.0, CountOf(Field(j, "numFailedTestSuites")), tests, loads,
                 CountOf(Field(j, "numTotalTests")), tests + loads, LoadFailures(Results(j))))
  }

  method ParseVitestDocument(json: Json) returns (parsed: Option<Parse>)
    ensures parsed == Verdict(json)
  {
    if !json.JObject? { return None; }
    if !(IsNumber(Field(json, "numFailedTests")) || IsNumber(Field(json, "numFailedTestSuites")) || IsNumber(Field(json, "numTotalTests"))) {
      return None;
    }
    var failedTests := CountOf(Field(json, "numFailedTests"));
    var failedSuites := CountOf(Field(json, "numFailedTestSuites"));
    var totalTests := CountOf(Field(json, "numTotalTests"));
    var results := Results(json);
    var loadFailureFiles: seq<string> := [];
    var suitesWithFailedTests: nat := 0;
    for i := 0 to |results|
      invariant loadFailureFiles == LoadFailures(results[..i])
      invariant suitesWithFailedTests == FailedAfterLoading(results[..i])
    {
      assert results[..i + 1][..i] == results[..i];
      var r := results[i];
      if FailedFile(r) {
        if Assertions(r) == 0 {
          loadFailureFiles := loadFailureFiles + [NameOf(r)];
        } else {
          suitesWithFailedTests := suitesWithFailedTests + 1;
        }
      }
    }
    assert results[..|results|] == results;
    var loadFailures: real;
    if |loadFailureFiles| > 0 {
      loadFailures := |loadFailureFiles| as real;
    } else if failedSuites > suitesWithFailedTests as real {
      loadFailures := failedSuites - suitesWithFailedTests as real;
    } else if failedSuites > 0.0 && failedTests == 0.0 {
      loadFailures := failedSuites;
    } else {
      loadFailures := 0.0;
    }
    var failCount := failedTests + loadFailures;
    return Some(Parse(failCount == 0.0, failedSuites, failedTests, loadFailures, totalTests, failCount, loadFailureFiles));
  }

  lemma {:induction false} NoLoadFailures(results: seq<Json>)
    ensures LoadFailures(results) == [] <==> forall r :: r in results ==> !FailedToLoad(r)
  {
    if results != [] {
      var init, last := results[..|results| - 1], results[|results| - 1];
      NoLoadFailures(init);
      assert forall r :: r in results <==> r in init || r == last;
    }
  }

  // ----- the verdict by the fields of the document

  /** The field holds a number. */
  predicate HasNumber(json: Json, name: string) {
    json.JObject? && name in json.fields && json.fields[name].JNumber?
  }

  /** What a counter reads: the number of its field if that is at least zero, and else zero. */
  predicate Reads(json: Json, name: string, count: real) {
    if HasNumber(json, name) && json.fields[name].n >= 0.0 then count == json.fields[name].n else count == 0.0
  }

  predicate IsArray(json: Json, name: string) {
    json.JObject? && name in json.fields && json.fields[name].JArray?
  }

  /** A test result with the status `failed`. */
  predicate Failed(r: Json) {
    r.JObject? && "status" in r.fields && r.fields["status"] == JString("failed")
  }

  /** A failed test result whose list of assertion results is missing or empty. */
  predicate NeverRan(r: Json) {
    Failed(r) && !(IsArray(r, "assertionResults") && r.fields["assertionResults"].items != [])
  }

  lemma FileIs(r: Json)
    ensures FailedToLoad(r) <==> NeverRan(r)
    ensures FailedFile(r) <==> Failed(r)
    ensures NameOf(r) == if r.JObject? && "name" in r.fields && r.fields["name"].JString? then r.fields["name"].s else "<unknown>"
  {
  }

  /** The results of a document: its list, if it has one. */
  function Listed(json: Json): seq<Json> {
    if IsArray(json, "testResults") then json.fields["testResults"].items else []
  }

  /** A document is a report exactly when it is an object with a number in one of the three counters. */
  lemma ReportIff(json: Json)
    ensures Verdict(json).Some? <==>
              HasNumber(json, "numFailedTests") || HasNumber(json, "numFailedTestSuites") || HasNumber(json, "numTotalTests")
  {
  }

  /**
   * The verdict fails closed. A report passes if and only if neither counter of failures is above zero and no failed result is
   * without assertions; and it reports its counters as they read.
   */
  lemma PassesIffNothingFailed(json: Json)
    requires Verdict(json).Some?
    ensures var v := Verdict(json).value;
            && Reads(json, "numFailedTests", v.failedTests) && Reads(json, "numFailedTestSuites", v.failedSuites)
            && Reads(json, "numTotalTests", v.totalTests)
            && v.failCount == v.failedTests + v.loadFailures && (v.passed <==> v.failCount == 0.0)
            && (v.passed <==>
                  && !(HasNumber(json, "numFailedTests") && json.fields["numFailedTests"].n > 0.0)
                  && !(HasNumber(json, "numFailedTestSuites") && json.fields["numFailedTestSuites"].n > 0.0)
                  && forall r :: r in Listed(json) ==> !NeverRan(r))
  {
    NoLoadFailures(Results(json));
    assert Results(json) == Listed(json);
    forall r ensures FailedToLoad(r) <==> NeverRan(r) { FileIs(r); }
  }

  /**
   * The load failures: the failed results that never ran; if there are none, the failed suites beyond the failed results that ran;
   * and if there are none of these, all failed suites when no test failed.
   */
  lemma LoadFailuresAre(json: Json)
    requires Verdict(json).Some?
    ensures var v, ran := Verdict(json).value, FailedAfterLoading(Listed(json)) as real;
            && v.loadFailureFiles == LoadFailures(Listed(json))
            && v.loadFailures == if v.loadFailureFiles != [] then |v.loadFailureFiles| as real
                                 else if v.failedSuites > ran then v.failedSuites - ran
                                 else if v.failedTests == 0.0 then v.failedSuites else 0.0
  {
  }

  /** Both lists are taken in order: they join as the results do, and one result adds its name or one exactly when it failed. */
  lemma {:induction false} ResultsAreTakenInOrder(a: seq<Json>, r: Json, b: seq<Json>)
    ensures LoadFailures(a + b) == LoadFailures(a) + LoadFailures(b)
    ensures FailedAfterLoading(a + b) == FailedAfterLoading(a) + FailedAfterLoading(b)
    ensures LoadFailures([r]) == if !NeverRan(r) then []
                                 else if "name" in r.fields && r.fields["name"].JString? then [r.fields["name"].s] else ["<unknown>"]
    ensures FailedAfterLoading([r]) == if Failed(r) && !NeverRan(r) then 1 else 0
  {
    FileIs(r);
    assert [r][..0] == [];
    if b == [] {
      assert a + b == a;
    } else {
      var n := |b| - 1;
      ResultsAreTakenInOrder(a, r, b[..n]);
      assert (a + b)[..|a| + n] == a + b[..n] && (a + b)[|a| + n] == b[n];
    }
  }

  // ----- the whole reader

  /** The verdict on the first candidate that is a report. */
  function FirstVerdict(candidates: seq<string>, parse: string -> Option<Json>): Option<Parse> {
    if candidates == [] then None
    else
      var json := parse(candidates[0]);
      var here := if json.Some? then Verdict(json.value) else None;
      if here.Some? then here else FirstVerdict(candidates[1..], parse)
  }

  method ParseVitestResult(raw: string, parse: string -> Option<Json>) returns (parsed: Option<Parse>)
    ensures parsed == FirstVerdict(Candidates(raw), parse)
  {
    var candidates := VitestJsonCandidates(raw);
    for i := 0 to |candidates|
      invariant FirstVerdict(candidates, parse) == FirstVerdict(candidates[i..], parse)
    {
      var json := parse(candidates[i]);
      if json.Some? {
        parsed := ParseVitestDocument(json.value);
        if parsed.Some? { return; }
      }
    }
    parsed := None;
  }

  /**
   * A stream of a preamble, a report and text with no brace and no quote, where the stream as a whole is not
   * a report unless it is the object itself: the reader gives the verdict on that object.
   */
  lemma {:induction false} ReportIsFound(pre: string, v: Value, post: string, parse: string -> Option<Json>)
    requires v.Obj? && Valid(v) && Preamble(pre) && Quiet(post)
    requires parse(Text(v)).Some? && IsReport(parse(Text(v)).value)
    requires var whole := Trim(pre + Text(v) + post);
             whole == Text(v) || parse(whole) == None || !IsReport(parse(whole).value)
    ensures FirstVerdict(Candidates(pre + Text(v) + post), parse) == Verdict(parse(Text(v)).value)
  {
    var t := Text(v);
    var left, right := TrimAround(pre, v, post);
    var text := left + t + right;
    ObjectEnds(v);
    TrimEndKeepsQuiet(post);
    OneSpan(left, v, right);
    var spans := Feed(START, text, 0, text).spans;
    assert spans == [t] && spans[..0] == [];
    assert Reversed(spans, text) == if t == text then [] else [t];
    if t != text {
      assert Candidates(pre + t + post) == [text, t] && [text, t][1..] == [t];
    } else {
      assert Candidates(pre + t + post) == [text];
    }
  }

  lemma {:induction false} TrimEndKeepsQuiet(post: string)
    requires Quiet(post)
    ensures Quiet(TrimEnd(post))
    decreases |post|
  {
    if post != "" && IsSpace(post[|post| - 1]) { TrimEndKeepsQuiet(post[..|post| - 1]); }
  }

  lemma {:induction false} OneSpan(left: string, v: Value, right: string)
    requires v.Obj? && Valid(v) && Preamble(left) && Quiet(right)
    ensures var text := left + Text(v) + right; Feed(START, text, 0, text).spans == [Text(v)]
  {
    var t := Text(v);
    var text := left + t + right;
    NeutralContents(v);
    hide Feed, Neutral, Valid, EntriesText;
    FeedObject(START, text, |left|, v.ws + EntriesText(v.entries));
    SpanIsFirst(left, t, right);
    FeedIdle(START.(spans := [t]), text, |left| + |t|, right);
  }

  // ----- a stream of several objects

  /** A complete JSON object and the text after it, up to the next object. */
  datatype Chunk = Chunk(v: Value, after: string)

  predicate ValidChunk(c: Chunk) {
    c.v.Obj? && Valid(c.v) && Preamble(c.after)
  }

  function Stream(chunks: seq<Chunk>): string {
    if chunks == [] then ""
    else
      var n := |chunks| - 1;
      Stream(chunks[..n]) + (Text(chunks[n].v) + chunks[n].after)
  }

  function ObjectTexts(chunks: seq<Chunk>): (texts: seq<string>)
    ensures |texts| == |chunks|
  {
    if chunks == [] then []
    else
      var n := |chunks| - 1;
      ObjectTexts(chunks[..n]) + [Text(chunks[n].v)]
  }

  /** The scanner finds each object of a stream, in order. */
  lemma {:induction false} StreamSpans(pre: string, chunks: seq<Chunk>, text: string)
    requires Preamble(pre) && (forall i :: 0 <= i < |chunks| ==> ValidChunk(chunks[i])) && pre + Stream(chunks) <= text
    ensures Feed(START, text, 0, pre + Stream(chunks)) == START.(spans := ObjectTexts(chunks))
  {
    hide Feed, Stream, Text, ValidChunk, Preamble, ObjectTexts;
    if chunks == [] {
      NoChunks(pre, text);
    } else {
      var n := |chunks| - 1;
      var init, c := chunks[..n], chunks[n];
      var before, piece := pre + Stream(init), Text(c.v) + c.after;
      LastChunk(pre, chunks);
      PrefixOfPrefix(before, piece, text);
      StreamSpans(pre, init, text);
      ChunkSpan(START.(spans := ObjectTexts(init)), text, before, c);
      FeedJoins(START, text, 0, before, piece);
    }
  }

  lemma {:induction false} NoChunks(pre: string, text: string)
    requires Preamble(pre)
    ensures Feed(START, text, 0, pre + Stream([])) == START.(spans := ObjectTexts([]))
  {
    assert pre + Stream([]) == pre;
    FeedIdle(START, text, 0, pre);
  }

  lemma LastChunk(pre: string, chunks: seq<Chunk>)
    requires chunks != []
    ensures var n := |chunks| - 1;
            && pre + Stream(chunks) == (pre + Stream(chunks[..n])) + (Text(chunks[n].v) + chunks[n].after)
            && ObjectTexts(chunks) == ObjectTexts(chunks[..n]) + [Text(chunks[n].v)]
  {
    hide Text;
    var n := |chunks| - 1;
    var piece := Text(chunks[n].v) + chunks[n].after;
    assert Stream(chunks) == Stream(chunks[..n]) + piece;
    Regroup(pre, Stream(chunks[..n]), piece);
    hide *;
  }

  lemma Regroup(a: string, b: string, c: string)
    ensures a + (b + c) == (a + b) + c
  {
  }

  lemma PrefixOfPrefix(a: string, b: string, text: string)
    requires a + b <= text
    ensures a <= text
  {
    assert text[..|a + b|] == a + b && (a + b)[..|a|] == a;
  }

  lemma SliceInside(text: string, before: string, t: string, after: string)
    requires before + (t + after) <= text
    ensures Slice(text, |before|, |before| + |t|) == t
  {
    var some := before + (t + after);
    assert text[..|some|] == some;
    assert some[|before|..|before| + |t|] == t;
  }

  lemma ObjectIsBraced(v: Value)
    requires v.Obj?
    ensures Text(v) == Braced(v.ws + EntriesText(v.entries))
  {
  }

  lemma {:induction false} ChunkSpan(s: Scanner, text: string, before: string, c: Chunk)
    requires s.depth == 0 && !s.inString && !s.escaped && s.start == None
    requires ValidChunk(c) && before + (Text(c.v) + c.after) <= text
    ensures Feed(s, text, |before|, Text(c.v) + c.after) == s.(spans := s.spans + [Text(c.v)])
  {
    hide Feed, Neutral, EntriesText, Text, Valid, Braced, Slice;
    var t, mid := Text(c.v), c.v.ws + EntriesText(c.v.entries);
    NeutralContents(c.v);
    ObjectIsBraced(c.v);
    FeedObject(s, text, |before|, mid);
    SliceInside(text, before, t, c.after);
    var now := s.(start := None, spans := s.spans + [t]);
    FeedJoins(s, text, |before|, t, c.after);
    FeedIdle(now, text, |before| + |t|, c.after);
  }

  /** What the reader makes of one candidate. */
  function Reading(candidate: string, parse: string -> Option<Json>): Option<Parse> {
    match parse(candidate)
    case Some(json) => Verdict(json)
    case None => None
  }

  lemma {:induction false} LastReading(spans: seq<string>, whole: string, k: nat, parse: string -> Option<Json>)
    requires k < |spans| && Reading(spans[k], parse).Some? && spans[k] != whole
    requires forall j :: k < j < |spans| ==> Reading(spans[j], parse).None?
    ensures FirstVerdict(Reversed(spans, whole), parse) == Reading(spans[k], parse)
  {
    var n := |spans| - 1;
    var rest := Reversed(spans[..n], whole);
    if k < n { LastReading(spans[..n], whole, k, parse); }
    if spans[n] == whole {
      assert [] + rest == rest;
    } else {
      assert ([spans[n]] + rest)[1..] == rest;
    }
  }

  /**
   * In a stream of objects with a preamble and text between them, where the whole is no report unless it is the object itself,
   * the last object that is a report gives the verdict.
   */
  lemma {:induction false} LastReportWins(raw: string, pre: string, chunks: seq<Chunk>, k: nat, parse: string -> Option<Json>)
    requires Preamble(pre) && (forall i :: 0 <= i < |chunks| ==> ValidChunk(chunks[i])) && k < |chunks|
    requires Trim(raw) == pre + Stream(chunks)
    requires Reading(Text(chunks[k].v), parse).Some?
    requires forall j :: k < j < |chunks| ==> Reading(Text(chunks[j].v), parse).None?
    requires Trim(raw) == Text(chunks[k].v) || Reading(Trim(raw), parse).None?
    ensures FirstVerdict(Candidates(raw), parse) == Reading(Text(chunks[k].v), parse)
  {
    var text := Trim(raw);
    StreamSpans(pre, chunks, text);
    var spans := ObjectTexts(chunks);
    ObjectEnds(chunks[k].v);
    StreamHas(chunks, k);
    forall i | 0 <= i < |chunks| ensures spans[i] == Text(chunks[i].v) { ObjectTextAt(chunks, i); }
    assert |text| > 0;
    var rest := Reversed(spans, text);
    assert Candidates(raw) == [text] + rest && ([text] + rest)[1..] == rest;
    hide Feed, Text, Stream, Trim, Reversed, Verdict, ValidChunk, ObjectTexts, Candidates;
    if text != spans[k] { LastReading(spans, text, k, parse); }
  }

  lemma {:induction false} ObjectTextAt(chunks: seq<Chunk>, i: nat)
    requires i < |chunks|
    ensures ObjectTexts(chunks)[i] == Text(chunks[i].v)
  {
    if i < |chunks| - 1 { ObjectTextAt(chunks[..|chunks| - 1], i); }
  }

  lemma {:induction false} StreamHas(chunks: seq<Chunk>, k: nat)
    requires k < |chunks|
    ensures |Stream(chunks)| >= |Text(chunks[k].v)|
  {
    if k < |chunks| - 1 { StreamHas(chunks[..|chunks| - 1], k); }
  }
}
