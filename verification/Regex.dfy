/**
 * The anchored regular expressions that the two glob compilers and the segment matcher emit: a parser
 * for the subset of the regex syntax that they use, and what a parsed expression accepts.
 */
module Regex {
  import opened Texts
  import opened Wrappers

  /**
   * `Run` is `[^/]*`, `DotlessRun` is `[^/.]*`, `One` is `[^/]`, `Any` is `.*` and `Dirs` is an optional
   * `.*` before a slash.
   */
  datatype Item = Lit(c: char) | Run | DotlessRun | One | Any | Dirs

  /** The characters that the dot does not match. */
  predicate LineTerminator(c: char) {
    c == '\n' || c == '\r' || c == '\U{2028}' || c == '\U{2029}'
  }

  predicate LineFree(s: string) {
    forall i :: 0 <= i < |s| ==> !LineTerminator(s[i])
  }

  predicate SlashFree(s: string) {
    forall i :: 0 <= i < |s| ==> s[i] != '/'
  }

  predicate DotFree(s: string) {
    forall i :: 0 <= i < |s| ==> s[i] != '.'
  }

  predicate SyntaxChar(c: char) {
    c in "\\^$.*+?()[]{}|"
  }

  /** What one item can consume. */
  predicate Takes(item: Item, s: string) {
    match item
    case Lit(c) => s == [c]
    case Run => SlashFree(s)
    case DotlessRun => SlashFree(s) && DotFree(s)
    case One => |s| == 1 && s[0] != '/'
    case Any => LineFree(s)
    case Dirs => s == "" || (s[|s| - 1] == '/' && LineFree(s))
  }

  /** The whole of `s` is what the items consume, one after another. */
  predicate Matches(items: seq<Item>, s: string)
    decreases |items|, 1
  {
    if items == [] then s == "" else exists k :: 0 <= k <= |s| && MatchesAt(items, s, k)
  }

  /** The first item consumes `k` characters and the other items the rest. */
  predicate MatchesAt(items: seq<Item>, s: string, k: nat)
    requires items != [] && k <= |s|
    decreases |items|, 0
  {
    Takes(items[0], s[..k]) && Matches(items[1..], s[k..])
  }

  /** Reads one item off the front: the item and the length of its text. */
  function ReadItem(s: string): Option<(Item, nat)>
    requires s != ""
  {
    if s[0] == '\\' then
      if |s| > 1 && (SyntaxChar(s[1]) || s[1] == '/') then Some((Lit(s[1]), 2)) else None
    else if Starts(s, "(?:.*\\/)?") then Some((Dirs, 9))
    else if Starts(s, "(?:.*/)?") then Some((Dirs, 8))
    else if Starts(s, ".*") then Some((Any, 2))
    else if Starts(s, "[^/]*") then Some((Run, 5))
    else if Starts(s, "[^/.]*") then Some((DotlessRun, 6))
    else if Starts(s, "[^/]") then Some((One, 4))
    else if SyntaxChar(s[0]) then None
    else Some((Lit(s[0]), 1))
  }

  function Parse(body: string): Option<seq<Item>>
    decreases |body|
  {
    if body == "" then Some([])
    else
      match ReadItem(body)
      case None => None
      case Some((item, n)) =>
        if n == 0 || n > |body| then None
        else
          match Parse(body[n..])
          case None => None
          case Some(rest) => Some([item] + rest)
  }

  /** An anchored source accepts a text: `new RegExp(source).test(s)`. */
  predicate Accepts(source: string, s: string) {
    && |source| >= 2 && source[0] == '^' && source[|source| - 1] == '$'
    && var items := Parse(source[1..|source| - 1]);
       items.Some? && Matches(items.value, s)
  }

  /** What the dot takes: any text without a line feed, a carriage return or one of the two separators. */
  lemma DotTakes(s: string)
    ensures Takes(Any, s) <==> forall c :: c in s ==> c !in "\n\r\U{2028}\U{2029}"
  {
    forall c: char ensures LineTerminator(c) <==> c in "\n\r\U{2028}\U{2029}" {
    }
    assert forall i :: 0 <= i < |s| ==> s[i] in s;
  }

  /** An accepted source is anchored at both ends, and a bare mark that starts no token of the subset is not read. */
  lemma OnlyTheSubsetIsRead(source: string, s: string, mark: char, rest: string)
    ensures Accepts(source, s) ==> |source| >= 2 && source[0] == '^' && source[|source| - 1] == '$'
    ensures mark in "^$*+?)]{}|" ==> Parse([mark] + rest) == None
  {
    if mark in "^$*+?)]{}|" { NoToken(mark, rest); }
  }

  lemma NoToken(mark: char, rest: string)
    requires mark in "^$*+?)]{}|"
    ensures ReadItem([mark] + rest) == None
  {
    var s := [mark] + rest;
    assert s[0] == mark && SyntaxChar(mark);
    OtherStart(s, "(?:.*\\/)?");
    OtherStart(s, "(?:.*/)?");
    OtherStart(s, ".*");
    OtherStart(s, "[^/]*");
    OtherStart(s, "[^/.]*");
    OtherStart(s, "[^/]");
  }

  lemma OtherStart(s: string, token: string)
    requires s != "" && token != "" && s[0] != token[0]
    ensures !Starts(s, token)
  {
    if |token| <= |s| { assert s[..|token|][0] == s[0]; }
  }

  // ----- the text of an item, and reading it back

  /** The text of an item. The compilers differ in whether they escape a slash. */
  function Text(item: Item, escapeSlash: bool): (t: string)
    ensures t != ""
  {
    match item
    case Lit(c) => if SyntaxChar(c) || (c == '/' && escapeSlash) then ['\\', c] else [c]
    case Run => "[^/]*"
    case DotlessRun => "[^/.]*"
    case One => "[^/]"
    case Any => ".*"
    case Dirs => if escapeSlash then "(?:.*\\/)?" else "(?:.*/)?"
  }

  function Render(items: seq<Item>, escapeSlash: bool): string {
    if items == [] then "" else Text(items[0], escapeSlash) + Render(items[1..], escapeSlash)
  }

  lemma TextStart(item: Item, escapeSlash: bool)
    ensures Text(item, escapeSlash)[0] != '*'
  {
  }

  lemma {:induction false} Differs(s: string, prefix: string, i: nat)
    requires i < |prefix| && i < |s| && s[i] != prefix[i]
    ensures !Starts(s, prefix)
  {
    if |prefix| <= |s| { assert s[..|prefix|][i] == s[i]; }
  }

  /** Reading the text of an item gives the item back, whatever follows. Only `[^/]` minds a star after it. */
  lemma {:induction false} ReadText(item: Item, escapeSlash: bool, rest: string)
    requires rest == "" || rest[0] != '*'
    ensures ReadItem(Text(item, escapeSlash) + rest) == Some((item, |Text(item, escapeSlash)|))
  {
    var t := Text(item, escapeSlash);
    var s := t + rest;
    assert s[..|t|] == t && forall i :: 0 <= i < |t| ==> s[i] == t[i];
    if s[0] != '(' { Differs(s, "(?:.*\\/)?", 0); Differs(s, "(?:.*/)?", 0); }
    if s[0] != '.' { Differs(s, ".*", 0); }
    if s[0] != '[' { Differs(s, "[^/]*", 0); Differs(s, "[^/.]*", 0); Differs(s, "[^/]", 0); }
    match item
    case Dirs => if !escapeSlash { Differs(s, "(?:.*\\/)?", 5); }
    case DotlessRun => Differs(s, "[^/]*", 3);
    case One =>
      Differs(s, "[^/.]*", 3);
      if rest != "" { Differs(s, "[^/]*", 4); }
    case _ =>
  }

  /** Escaping is complete: the parser reads a rendered list back as the same list. */
  lemma {:induction false} ParseRender(items: seq<Item>, escapeSlash: bool)
    ensures Parse(Render(items, escapeSlash)) == Some(items)
  {
    if items != [] {
      var t, rest := Text(items[0], escapeSlash), Render(items[1..], escapeSlash);
      if items[1..] != [] { TextStart(items[1], escapeSlash); }
      ReadText(items[0], escapeSlash, rest);
      ParseRender(items[1..], escapeSlash);
      assert (t + rest)[|t|..] == rest;
      assert [items[0]] + items[1..] == items;
    }
  }

  lemma {:induction false} AcceptsRendered(items: seq<Item>, escapeSlash: bool, s: string)
    ensures Accepts("^" + Render(items, escapeSlash) + "$", s) <==> Matches(items, s)
  {
    var source := "^" + Render(items, escapeSlash) + "$";
    assert source[1..|source| - 1] == Render(items, escapeSlash);
    ParseRender(items, escapeSlash);
  }

  // ----- splitting a match

  /** What the first item consumes in a match. */
  lemma {:induction false} MatchHead(items: seq<Item>, s: string) returns (k: nat)
    requires Matches(items, s) && items != []
    ensures k <= |s| && Takes(items[0], s[..k]) && Matches(items[1..], s[k..])
  {
    k :| 0 <= k <= |s| && MatchesAt(items, s, k);
  }

  /** A match of a list splits where the list splits. */
  lemma {:induction false} MatchSplits(a: seq<Item>, b: seq<Item>, s: string) returns (k: nat)
    requires Matches(a + b, s)
    ensures k <= |s| && Matches(a, s[..k]) && Matches(b, s[k..])
  {
    if a == [] {
      assert a + b == b && s[0..] == s;
      return 0;
    }
    assert (a + b)[0] == a[0] && (a + b)[1..] == a[1..] + b;
    var j := MatchHead(a + b, s);
    var i := MatchSplits(a[1..], b, s[j..]);
    k := j + i;
    assert s[..k][..j] == s[..j] && s[..k][j..] == s[j..][..i] && s[k..] == s[j..][i..];
    assert MatchesAt(a, s[..k], j);
  }

  lemma {:induction false} MatchJoins(a: seq<Item>, b: seq<Item>, x: string, y: string)
    requires Matches(a, x) && Matches(b, y)
    ensures Matches(a + b, x + y)
  {
    if a == [] {
      assert a + b == b && x + y == y;
    } else {
      var j := MatchHead(a, x);
      MatchJoins(a[1..], b, x[j..], y);
      var items, s := a + b, x + y;
      assert items[0] == a[0] && items[1..] == a[1..] + b;
      assert s[..j] == x[..j] && s[j..] == x[j..] + y;
      assert MatchesAt(items, s, j);
    }
  }

  /** How often a line feed stands right before a slash. */
  function Breaks(s: string): nat {
    if |s| < 2 then 0 else (if s[0] == '\n' && s[1] == '/' then 1 else 0) + Breaks(s[1..])
  }

  lemma {:induction false} BreaksSplit(s: string, k: nat)
    requires k <= |s|
    ensures Breaks(s) <= Breaks(s[..k]) + Breaks(s[k..]) + 1
    ensures Breaks(s) >= Breaks(s[..k]) + Breaks(s[k..])
    decreases k
  {
    if k == 0 {
      assert s[0..] == s;
    } else if k == 1 {
    } else {
      assert s[..k][1..] == s[1..][..k - 1] && s[1..][k - 1..] == s[k..];
      BreaksSplit(s[1..], k - 1);
    }
  }

  lemma {:induction false} NoBreakInside(s: string)
    requires SlashFree(s) || LineFree(s) || |s| <= 1
    ensures Breaks(s) == 0
    decreases |s|
  {
    if |s| >= 2 {
      NoBreakInside(s[1..]);
    }
  }

  /** No item crosses from a line feed to a slash, so few items accept few breaks. */
  lemma {:induction false} MatchLimitsBreaks(items: seq<Item>, s: string)
    requires Matches(items, s)
    ensures Breaks(s) <= |items|
    decreases |items|
  {
    if items != [] {
      var k := MatchHead(items, s);
      MatchLimitsBreaks(items[1..], s[k..]);
      NoBreakInside(s[..k]);
      BreaksSplit(s, k);
    }
  }
}
