/**
 * The two glob compilers. Each one is the loop of the source, proved to emit the text of a token list,
 * and the regular expression that it emits is compared with the direct meaning of a glob.
 */
module Globs {
  import opened Regex
  import opened Texts

  // ----- the direct meaning of a glob on a path

  predicate DoubleStar(p: string) {
    |p| >= 2 && p[0] == '*' && p[1] == '*'
  }

  predicate DoubleStarSlash(p: string) {
    DoubleStar(p) && |p| >= 3 && p[2] == '/'
  }

  /**
   * A double star with a slash after it stands for zero or more leading directories, any other double
   * star for any text, a single star for a text with no slash, and each other character for itself.
   */
  ghost predicate GlobMatches(p: string, s: string)
    decreases |p|
  {
    if p == "" then s == ""
    else if DoubleStarSlash(p) then
      GlobMatches(p[3..], s) || exists k :: 0 < k <= |s| && s[k - 1] == '/' && GlobMatches(p[3..], s[k..])
    else if DoubleStar(p) then exists k :: 0 <= k <= |s| && GlobMatches(p[2..], s[k..])
    else if p[0] == '*' then exists k :: 0 <= k <= |s| && SlashFree(s[..k]) && GlobMatches(p[1..], s[k..])
    else s != "" && s[0] == p[0] && GlobMatches(p[1..], s[1..])
  }

  predicate HasDoubleStar(p: string) {
    exists i :: 0 <= i < |p| - 1 && p[i] == '*' && p[i + 1] == '*'
  }

  // ----- tokens

  /** The first token of a glob. In a test name, a single star that ends the glob also takes no dot. */
  function Head(p: string, test: bool): Item
    requires p != ""
  {
    if p[0] != '*' then Lit(p[0])
    else if DoubleStarSlash(p) then Dirs
    else if DoubleStar(p) then Any
    else if test && |p| == 1 then DotlessRun
    else Run
  }

  /** The length of the first token. */
  function Width(p: string): (w: nat)
    requires p != ""
    ensures 1 <= w <= |p|
  {
    if DoubleStarSlash(p) then 3 else if DoubleStar(p) then 2 else 1
  }

  function Tokens(p: string, test: bool): seq<Item>
    decreases |p|
  {
    if p == "" then [] else [Head(p, test)] + Tokens(p[Width(p)..], test)
  }

  function GlobItems(p: string): seq<Item> {
    Tokens(p, false)
  }

  function TestItems(p: string): seq<Item> {
    Tokens(p, true)
  }

  // ----- the compilers

  lemma {:induction false} RenderHead(p: string, test: bool, escapeSlash: bool)
    requires p != ""
    ensures Render(Tokens(p, test), escapeSlash)
         == Text(Head(p, test), escapeSlash) + Render(Tokens(p[Width(p)..], test), escapeSlash)
  {
    var tail := Tokens(p[Width(p)..], test);
    assert ([Head(p, test)] + tail)[1..] == tail;
  }

  /** One turn of a compiler loop: it wrote the text of the first token of what was left. */
  lemma {:induction false} LoopStep(p: string, i: nat, w: nat, test: bool, escapeSlash: bool, before: string, out: string, whole: string)
    requires i < |p| && w == Width(p[i..])
    requires before + Render(Tokens(p[i..], test), escapeSlash) == whole
    requires out == before + Text(Head(p[i..], test), escapeSlash)
    ensures out + Render(Tokens(p[i + w..], test), escapeSlash) == whole
  {
    RenderHead(p[i..], test, escapeSlash);
    assert p[i..][w..] == p[i + w..];
  }

  /** The text of a character that is no star, by the first compiler. */
  function GlobEscape(ch: char): string {
    if ch in "\\^$.|?+()[]{}" then ['\\', ch] else if ch == '/' then "\\/" else [ch]
  }

  /** The same by the second compiler, which does not escape a slash. */
  function TestNameEscape(ch: char): string {
    if ch in ".+?^${}()|[]\\" then ['\\', ch] else [ch]
  }

  lemma EscapesAreText(ch: char)
    requires ch != '*'
    ensures GlobEscape(ch) == Text(Lit(ch), true) && TestNameEscape(ch) == Text(Lit(ch), false)
  {
  }

  method GlobToRegExp(pattern: string) returns (source: string)
    ensures source == "^" + Render(GlobItems(pattern), true) + "$"
    ensures forall path :: LineFree(path) ==> (Accepts(source, path) <==> GlobMatches(pattern, path))
  {
    hide Accepts, GlobMatches, GlobEscape, TestNameEscape;
    var out := "";
    var i := 0;
    ghost var whole := Render(Tokens(pattern, false), true);
    assert pattern[0..] == pattern;
    while i < |pattern|
      invariant 0 <= i <= |pattern|
      invariant out + Render(Tokens(pattern[i..], false), true) == whole
    {
      var ch := pattern[i];
      ghost var i0, out0 := i, out;
      if ch == '*' {
        if i + 1 < |pattern| && pattern[i + 1] == '*' {
          i := i + 1;
          if i + 1 < |pattern| && pattern[i + 1] == '/' {
            i := i + 1;
            out := out + "(?:.*\\/)?";
          } else {
            out := out + ".*";
          }
        } else {
          out := out + "[^/]*";
        }
      } else {
        EscapesAreText(ch);
        out := out + GlobEscape(ch);
      }
      i := i + 1;
      LoopStep(pattern, i0, i - i0, false, true, out0, out, whole);
    }
    assert out == whole;
    source := "^" + out + "$";
    CompiledGlob(pattern);
  }

  lemma {:induction false} CompiledGlob(pattern: string)
    ensures forall path ::
              LineFree(path) ==> (Accepts("^" + Render(GlobItems(pattern), true) + "$", path) <==> GlobMatches(pattern, path))
  {
    forall path | LineFree(path)
      ensures Accepts("^" + Render(GlobItems(pattern), true) + "$", path) <==> GlobMatches(pattern, path)
    {
      AcceptsRendered(GlobItems(pattern), true, path);
      ItemsMeanGlob(pattern, path);
    }
  }

  method TestNameRegExp(glob: string) returns (source: string)
    ensures source == "^" + Render(TestItems(glob), false) + "$"
    ensures forall path :: Accepts(source, path) <==> Matches(TestItems(glob), path)
  {
    hide Accepts, Matches, GlobEscape, TestNameEscape;
    var finalStar := if glob != "" && glob[|glob| - 1] == '*' then |glob| - 1 else -1;
    var out := "^";
    var i := 0;
    ghost var whole := "^" + Render(Tokens(glob, true), false);
    assert glob[0..] == glob;
    while i < |glob|
      invariant 0 <= i <= |glob|
      invariant out + Render(Tokens(glob[i..], true), false) == whole
    {
      var ch := glob[i];
      ghost var i0, out0 := i, out;
      if ch == '*' && i + 1 < |glob| && glob[i + 1] == '*' {
        var slash := i + 2 < |glob| && glob[i + 2] == '/';
        out := out + if slash then "(?:.*/)?" else ".*";
        i := i + if slash then 2 else 1;
      } else if ch == '*' {
        out := out + if i == finalStar then "[^/.]*" else "[^/]*";
      } else {
        EscapesAreText(ch);
        out := out + TestNameEscape(ch);
      }
      i := i + 1;
      LoopStep(glob, i0, i - i0, true, false, out0, out, whole);
    }
    assert out == whole;
    source := out + "$";
    CompiledTestName(glob);
  }

  lemma {:induction false} CompiledTestName(glob: string)
    ensures forall path :: Accepts("^" + Render(TestItems(glob), false) + "$", path) <==> Matches(TestItems(glob), path)
  {
    forall path ensures Accepts("^" + Render(TestItems(glob), false) + "$", path) <==> Matches(TestItems(glob), path) {
      AcceptsRendered(TestItems(glob), false, path);
    }
  }

  // ----- the compiled glob and the direct meaning

  /** What the regular expression accepts always matches the glob, and on a path with no line terminator it is the same. */
  lemma {:induction false} ItemsMeanGlob(p: string, s: string)
    ensures Matches(GlobItems(p), s) ==> GlobMatches(p, s)
    ensures LineFree(s) && GlobMatches(p, s) ==> Matches(GlobItems(p), s)
    decreases |p|
  {
    if p != "" {
      var items := GlobItems(p);
      if Matches(items, s) {
        var k := MatchHead(items, s);
        ItemsStep(p);
        ItemsMeanGlob(p[Width(p)..], s[k..]);
        GlobFromTail(p, s, k);
      }
      if LineFree(s) && GlobMatches(p, s) {
        var k := GlobToTail(p, s);
        ItemsStep(p);
        ItemsMeanGlob(p[Width(p)..], s[k..]);
        assert MatchesAt(items, s, k);
      }
    }
  }

  lemma ItemsStep(p: string)
    requires p != ""
    ensures GlobItems(p)[1..] == GlobItems(p[Width(p)..])
  {
  }

  lemma {:induction false} GlobFromTail(p: string, s: string, k: nat)
    requires p != "" && k <= |s| && Takes(GlobItems(p)[0], s[..k]) && GlobMatches(p[Width(p)..], s[k..])
    ensures GlobMatches(p, s)
  {
    if DoubleStarSlash(p) {
      if k > 0 { assert s[..k][k - 1] == s[k - 1]; } else { assert s[0..] == s; }
    } else if p[0] != '*' {
      assert |s[..k]| == 1 && s[..k][0] == s[0];
    }
  }

  lemma {:induction false} GlobToTail(p: string, s: string) returns (k: nat)
    requires p != "" && GlobMatches(p, s) && LineFree(s)
    ensures k <= |s| && Takes(GlobItems(p)[0], s[..k]) && GlobMatches(p[Width(p)..], s[k..])
  {
    if DoubleStarSlash(p) {
      if GlobMatches(p[3..], s) {
        k := 0;
        assert s[0..] == s;
      } else {
        k :| 0 < k <= |s| && s[k - 1] == '/' && GlobMatches(p[3..], s[k..]);
      }
    } else if DoubleStar(p) {
      k :| 0 <= k <= |s| && GlobMatches(p[2..], s[k..]);
    } else if p[0] == '*' {
      k :| 0 <= k <= |s| && SlashFree(s[..k]) && GlobMatches(p[1..], s[k..]);
    } else {
      k := 1;
      assert s[..1] == [p[0]];
    }
  }

  // ----- line terminators: the exact condition

  lemma {:induction false} SomePath(p: string) returns (s: string)
    ensures GlobMatches(p, s)
    decreases |p|
  {
    if p == "" { return ""; }
    var rest := SomePath(p[Width(p)..]);
    if p[0] == '*' {
      s := rest;
      assert s[0..] == s;
      assert SlashFree(s[..0]);
    } else {
      s := [p[0]] + rest;
    }
  }

  lemma {:induction false} ManyBreaks(n: nat, rest: string) returns (s: string)
    ensures |s| == 2 * n + |rest| && s[2 * n..] == rest && Breaks(s) >= n
    ensures n > 0 ==> s[2 * n - 1] == '/'
  {
    if n == 0 { return rest; }
    var t := ManyBreaks(n - 1, rest);
    s := "\n/" + t;
    assert s[1..] == "/" + t && s[1..][1..] == t;
    assert s[2 * n..] == t[2 * (n - 1)..];
  }

  /** A glob with a double star matches paths with any number of line feeds before slashes. */
  lemma {:induction false} BrokenPath(p: string, n: nat) returns (s: string)
    requires HasDoubleStar(p) && n > 0
    ensures GlobMatches(p, s) && Breaks(s) >= n
    decreases |p|
  {
    if DoubleStar(p) {
      var rest := SomePath(p[Width(p)..]);
      s := ManyBreaks(n, rest);
    } else {
      assert HasDoubleStar(p[1..]) by {
        var i :| 0 <= i < |p| - 1 && p[i] == '*' && p[i + 1] == '*';
        assert p[1..][i - 1] == '*' && p[1..][i] == '*';
      }
      var t := BrokenPath(p[1..], n);
      if p[0] == '*' {
        s := t;
        assert s[0..] == s && SlashFree(s[..0]);
      } else {
        s := [p[0]] + t;
        assert s[1..] == t;
      }
    }
  }

  lemma {:induction false} NoDotWithoutDoubleStar(p: string, s: string)
    requires !HasDoubleStar(p) && GlobMatches(p, s)
    ensures Matches(GlobItems(p), s)
    decreases |p|
  {
    if p != "" {
      ItemsStep(p);
      assert !HasDoubleStar(p[1..]) by {
        forall i | 0 <= i < |p[1..]| - 1 ensures !(p[1..][i] == '*' && p[1..][i + 1] == '*') {
          assert !(p[i + 1] == '*' && p[i + 1 + 1] == '*');
        }
      }
      var k: nat := 1;
      if p[0] == '*' {
        k :| 0 <= k <= |s| && SlashFree(s[..k]) && GlobMatches(p[1..], s[k..]);
      } else {
        assert s[..1] == [p[0]];
      }
      NoDotWithoutDoubleStar(p[1..], s[k..]);
      assert MatchesAt(GlobItems(p), s, k);
    }
  }

  /** Without the restriction to line-free paths, the compiled glob is exact if and only if it has no double star. */
  lemma {:induction false} ExactOnEveryPathIffNoDoubleStar(p: string)
    ensures (forall s :: Matches(GlobItems(p), s) <==> GlobMatches(p, s)) <==> !HasDoubleStar(p)
  {
    if HasDoubleStar(p) {
      var s := BrokenPath(p, |GlobItems(p)| + 1);
      if Matches(GlobItems(p), s) { MatchLimitsBreaks(GlobItems(p), s); }
      assert !(Matches(GlobItems(p), s) <==> GlobMatches(p, s));
    } else {
      forall s ensures Matches(GlobItems(p), s) <==> GlobMatches(p, s) {
        ItemsMeanGlob(p, s);
        if GlobMatches(p, s) { NoDotWithoutDoubleStar(p, s); }
      }
    }
  }

  // ----- the two compilers compared

  /** The glob ends in a star that is a token of its own. */
  predicate EndsInSingleStar(p: string)
    decreases |p|
  {
    p != "" && (p == "*" || EndsInSingleStar(p[Width(p)..]))
  }

  /** The test-name tokens are the glob tokens, but for a final single star. */
  lemma {:induction false} TestItemsShape(p: string)
    ensures EndsInSingleStar(p) ==> p[|p| - 1] == '*' && GlobItems(p) != [] && GlobItems(p)[|GlobItems(p)| - 1] == Run
    ensures TestItems(p) == if EndsInSingleStar(p) then GlobItems(p)[..|GlobItems(p)| - 1] + [DotlessRun] else GlobItems(p)
    decreases |p|
  {
    if p != "" {
      var rest := p[Width(p)..];
      TestItemsShape(rest);
      if p == "*" {
        assert TestItems(p) == [DotlessRun] && GlobItems(p) == [Run];
      } else {
        var head := GlobItems(p)[0];
        assert GlobItems(p) == [head] + GlobItems(rest) && TestItems(p) == [head] + TestItems(rest);
      }
    }
  }

  lemma {:induction false} RunIsWider(a: seq<Item>, s: string)
    requires Matches(a + [DotlessRun], s)
    ensures Matches(a + [Run], s)
  {
    var k := MatchSplits(a, [DotlessRun], s);
    LastRun(DotlessRun, s[k..]);
    LastRun(Run, s[k..]);
    MatchJoins(a, [Run], s[..k], s[k..]);
    assert s[..k] + s[k..] == s;
  }

  lemma {:induction false} LastRun(item: Item, s: string)
    ensures Matches([item], s) <==> Takes(item, s)
  {
    assert s[..|s|] == s && s[|s|..] == "";
    if Matches([item], s) {
      var k := MatchHead([item], s);
      assert k == |s|;
    }
    if Takes(item, s) { assert MatchesAt([item], s, |s|); }
  }

  /** The language of the test-name compiler is inside that of the glob compiler, and equal without a final star. */
  lemma {:induction false} TestNamesAreGlobMatches(p: string, s: string)
    ensures Matches(TestItems(p), s) ==> Matches(GlobItems(p), s)
    ensures !EndsInSingleStar(p) ==> (Matches(TestItems(p), s) <==> Matches(GlobItems(p), s))
    ensures EndsInSingleStar(p) ==> p[|p| - 1] == '*'
  {
    TestItemsShape(p);
    if EndsInSingleStar(p) && Matches(TestItems(p), s) {
      var n := |GlobItems(p)| - 1;
      RunIsWider(GlobItems(p)[..n], s);
      assert GlobItems(p) == GlobItems(p)[..n] + [Run];
    }
  }

  predicate EndsInExtension(prefix: seq<Item>, s: string, k: nat)
    requires k <= |s|
  {
    Matches(prefix, s[..k]) && SlashFree(s[k..]) && DotFree(s[k..])
  }

  lemma {:induction false} ThenDotlessRun(prefix: seq<Item>, s: string)
    ensures Matches(prefix + [DotlessRun], s) <==> exists k :: 0 <= k <= |s| && EndsInExtension(prefix, s, k)
  {
    forall k | 0 <= k <= |s| ensures EndsInExtension(prefix, s, k) <==> Matches(prefix, s[..k]) && Matches([DotlessRun], s[k..]) {
      LastRun(DotlessRun, s[k..]);
    }
    hide Matches, EndsInExtension;
    if Matches(prefix + [DotlessRun], s) {
      var k := MatchSplits(prefix, [DotlessRun], s);
      assert EndsInExtension(prefix, s, k);
    }
    if k :| 0 <= k <= |s| && EndsInExtension(prefix, s, k) {
      MatchJoins(prefix, [DotlessRun], s[..k], s[k..]);
      assert s[..k] + s[k..] == s;
    }
  }

  /** What a final single star takes: one run with no slash and no dot, after a match of the tokens before it. */
  lemma {:induction false} FinalStarTakesOneExtension(p: string, s: string)
    requires EndsInSingleStar(p)
    ensures var prefix := GlobItems(p)[..|GlobItems(p)| - 1];
            Matches(TestItems(p), s) <==>
              exists k :: 0 <= k <= |s| && EndsInExtension(prefix, s, k)
  {
    TestItemsShape(p);
    ThenDotlessRun(GlobItems(p)[..|GlobItems(p)| - 1], s);
  }

  // ----- test-name globs

  function LastSegment(glob: string): (last: string)
    ensures |last| <= |glob| && glob[|glob| - |last|..] == last && SlashFree(last)
    ensures |last| < |glob| ==> glob[|glob| - |last| - 1] == '/'
  {
    if glob == "" then ""
    else if glob[|glob| - 1] == '/' then ""
    else
      var front := LastSegment(glob[..|glob| - 1]);
      front + [glob[|glob| - 1]]
  }

  predicate IsTestNameGlob(glob: string) {
    '*' in LastSegment(glob) && LastSegment(glob) != "**"
  }

  /** `matchesTestName`: some test-name glob of the list compiles to an expression that accepts the file. */
  ghost predicate MatchesTestName(file: string, globs: seq<string>) {
    exists i :: 0 <= i < |globs| && IsTestNameGlob(globs[i]) &&
      Accepts("^" + Render(TestItems(globs[i]), false) + "$", file)
  }

  /** How many stars end a text. */
  function TrailingStars(p: string): (n: nat)
    ensures n <= |p|
  {
    if p != "" && p[|p| - 1] == '*' then 1 + TrailingStars(p[..|p| - 1]) else 0
  }

  lemma {:induction false} StarsOfConcat(a: string, b: string)
    ensures TrailingStars(a + b) == TrailingStars(b) + if TrailingStars(b) == |b| then TrailingStars(a) else 0
    decreases |b|
  {
    if b == "" {
      assert a + b == a;
    } else {
      assert (a + b)[..|a + b| - 1] == a + b[..|b| - 1];
      StarsOfConcat(a, b[..|b| - 1]);
    }
  }

  /** Stars pair up from the left, so a glob ends in a single star exactly when an odd number of stars ends it. */
  lemma {:induction false} SingleStarIff(p: string)
    ensures EndsInSingleStar(p) <==> TrailingStars(p) % 2 == 1
    decreases |p|
  {
    if p != "" {
      var w := Width(p);
      var head, rest := p[..w], p[w..];
      assert p == head + rest;
      StarsOfConcat(head, rest);
      SingleStarIff(rest);
      assert TrailingStars(head) == if p[0] != '*' || DoubleStarSlash(p) then 0 else w by {
        assert head[..1] == [p[0]] && head[..1][..0] == "";
        if w == 2 { assert head[..1] == "*"; }
      }
      if w == 1 && p[0] == '*' && rest != "" { assert rest[0] != '*' && TrailingStars(rest) < |rest| by { FewerStars(rest); } }
    }
  }

  lemma {:induction false} FewerStars(p: string)
    requires p != "" && p[0] != '*'
    ensures TrailingStars(p) < |p|
  {
    if |p| > 1 { FewerStars(p[..|p| - 1]); }
  }

  /** Before a final single star the tokens are those of the glob without it. */
  lemma {:induction false} TokensBeforeStar(p: string)
    requires EndsInSingleStar(p)
    ensures GlobItems(p) == GlobItems(p[..|p| - 1]) + [Run] && p[|p| - 1] == '*'
    decreases |p|
  {
    TestItemsShape(p);
    if p == "*" {
      assert GlobItems(p) == [Run];
    } else {
      var w := Width(p);
      var rest, init := p[w..], p[..|p| - 1];
      TokensBeforeStar(rest);
      assert init[w..] == rest[..|rest| - 1] && Width(init) == w && Head(init, false) == Head(p, false);
    }
  }

  /**
   * What the documentation says of a glob that names a test: its last segment holds a star and is not a double star. It names a
   * file that it matches; but a single star at its end takes one extension, that is, neither a slash nor a dot.
   */
  ghost predicate NamesTest(glob: string, file: string) {
    var segments := Split(glob, '/');
    var last := segments[|segments| - 1];
    && '*' in last && last != "**"
    && if TrailingStars(glob) % 2 == 1 then
         exists k :: 0 <= k <= |file| && '/' !in file[k..] && '.' !in file[k..] && GlobMatches(glob[..|glob| - 1], file[..k])
       else GlobMatches(glob, file)
  }

  lemma {:induction false} LastSegmentIsLast(glob: string)
    ensures var segments := Split(glob, '/'); LastSegment(glob) == segments[|segments| - 1]
  {
    var last := LastSegment(glob);
    var n := |glob| - |last|;
    assert '/' !in last && glob[n..] == last && (n > 0 ==> glob[n - 1] == '/');
    SplitOne(last, '/');
    hide LastSegment, Split;
    if n == 0 {
      assert glob == last;
    } else {
      SplitJoin(glob[..n - 1], last, '/');
      assert glob == glob[..n - 1] + ['/'] + last;
    }
  }

  /** One glob of the list, on a path with no line terminator. */
  lemma {:induction false} AcceptsIffNamesTest(glob: string, file: string)
    requires LineFree(file)
    ensures IsTestNameGlob(glob) && Accepts("^" + Render(TestItems(glob), false) + "$", file) <==> NamesTest(glob, file)
  {
    LastSegmentIsLast(glob);
    AcceptsRendered(TestItems(glob), false, file);
    SingleStarIff(glob);
    TestItemsShape(glob);
    assert IsTestNameGlob(glob) <==> '*' in LastSegment(glob) && LastSegment(glob) != "**";
    hide Accepts, Render, IsTestNameGlob, LastSegment, TestItems, Matches, GlobMatches, TrailingStars, Split;
    if EndsInSingleStar(glob) {
      FinalStarTakesOneExtension(glob, file);
      FinalStarMeans(glob, file);
    } else {
      ItemsMeanGlob(glob, file);
    }
  }

  lemma {:induction false} FinalStarMeans(glob: string, file: string)
    requires LineFree(file) && EndsInSingleStar(glob) && GlobItems(glob) != []
    ensures var prefix := GlobItems(glob)[..|GlobItems(glob)| - 1];
            (exists k :: 0 <= k <= |file| && EndsInExtension(prefix, file, k)) <==>
              exists k :: 0 <= k <= |file| && '/' !in file[k..] && '.' !in file[k..] && GlobMatches(glob[..|glob| - 1], file[..k])
  {
    var prefix, init := GlobItems(glob)[..|GlobItems(glob)| - 1], glob[..|glob| - 1];
    TokensBeforeStar(glob);
    assert prefix == GlobItems(init);
    forall k | 0 <= k <= |file|
      ensures EndsInExtension(prefix, file, k) <==> '/' !in file[k..] && '.' !in file[k..] && GlobMatches(init, file[..k])
    {
      ItemsMeanGlob(init, file[..k]);
    }
  }

  /** On a path with no line terminator, a file has a test name exactly when some glob of the list names it a test. */
  lemma {:induction false} TestNameIff(file: string, globs: seq<string>)
    requires LineFree(file)
    ensures MatchesTestName(file, globs) <==> exists i :: 0 <= i < |globs| && NamesTest(globs[i], file)
  {
    forall i | 0 <= i < |globs|
      ensures IsTestNameGlob(globs[i]) && Accepts("^" + Render(TestItems(globs[i]), false) + "$", file) <==> NamesTest(globs[i], file)
    {
      AcceptsIffNamesTest(globs[i], file);
    }
  }

  /** A file with a test name matches some glob of the list, and its last segment was named by a star of that glob. */
  lemma {:induction false} TestNameMatchesItsGlob(file: string, globs: seq<string>)
    requires MatchesTestName(file, globs)
    ensures exists i :: 0 <= i < |globs| && GlobMatches(globs[i], file) && '*' in LastSegment(globs[i])
  {
    var i :| 0 <= i < |globs| && IsTestNameGlob(globs[i]) &&
      Accepts("^" + Render(TestItems(globs[i]), false) + "$", file);
    AcceptsRendered(TestItems(globs[i]), false, file);
    TestNamesAreGlobMatches(globs[i], file);
    ItemsMeanGlob(globs[i], file);
  }
}
