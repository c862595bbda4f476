/**
 * The evaluator of the enforcement check trees, and the diff splitter below it. What a user pattern
 * matches in one section body, and which paths a glob selects, are functions that the caller gives.
 */
module CheckEvaluator {
  import opened Regex
  import opened Texts
  import opened Wrappers

  // ----- splitting a diff by file

  datatype Section = Section(path: Option<string>, body: string)

  function Lines(text: string): (lines: seq<string>)
    ensures lines != []
  {
    Split(text, '\n')
  }

  /** The lines with a line feed after each one. */
  function Unlines(lines: seq<string>): string {
    if lines == [] then "" else lines[0] + "\n" + Unlines(lines[1..])
  }

  function Bodies(sections: seq<Section>): string {
    if sections == [] then "" else Bodies(sections[..|sections| - 1]) + sections[|sections| - 1].body
  }

  /** The post-image path of a `+++ b/` line. The dot of its pattern matches no line terminator. */
  function PathOf(line: string): Option<string> {
    if |line| > 6 && line[..6] == "+++ b/" && LineFree(line[6..]) then Some(line[6..]) else None
  }

  /** A line gives a path exactly when it is the path with `+++ b/` before it, and the path is not empty. */
  lemma {:induction false} PathOfIff(line: string, path: string)
    ensures PathOf(line) == Some(path) <==> path != "" && LineFree(path) && line == "+++ b/" + path
  {
    if |line| >= 6 { assert line == line[..6] + line[6..]; }
    assert ("+++ b/" + path)[6..] == path;
  }

  predicate GitHeader(line: string) { Starts(line, "diff --git ") }

  predicate OldHeader(line: string) { Starts(line, "--- ") }

  /** True when a line opens a new section after these ones. */
  predicate Opens(sections: seq<Section>, line: string) {
    sections == [] || GitHeader(line) || (OldHeader(line) && sections[|sections| - 1].path.Some?)
  }

  function Extend(s: Section, line: string): Section {
    Section(if PathOf(line).Some? then PathOf(line) else s.path, s.body + line + "\n")
  }

  function AddLine(sections: seq<Section>, line: string): seq<Section> {
    if Opens(sections, line) then sections + [Extend(Section(None, ""), line)]
    else sections[..|sections| - 1] + [Extend(sections[|sections| - 1], line)]
  }

  function AddLines(sections: seq<Section>, lines: seq<string>): seq<Section>
    decreases |lines|
  {
    if lines == [] then sections else AddLines(AddLine(sections, lines[0]), lines[1..])
  }

  lemma {:induction false} UnlinesLines(text: string)
    ensures Unlines(Lines(text)) == text + "\n"
  {
    if text == "" {
      assert Lines(text)[1..] == [];
    } else {
      var rest := Lines(text[1..]);
      UnlinesLines(text[1..]);
      var lines := Lines(text);
      if text[0] == '\n' {
        assert lines[1..] == rest;
        assert text == "\n" + text[1..];
      } else {
        assert lines[1..] == rest[1..];
        assert text == [text[0]] + text[1..];
        assert Unlines(lines) == [text[0]] + Unlines(rest);
      }
    }
  }

  lemma {:induction false} AddLineBodies(sections: seq<Section>, line: string)
    ensures Bodies(AddLine(sections, line)) == Bodies(sections) + line + "\n"
  {
    var next := AddLine(sections, line);
    if Opens(sections, line) {
      assert next[..|next| - 1] == sections;
      assert "" + line + "\n" == line + "\n";
    } else {
      assert next[..|next| - 1] == sections[..|sections| - 1];
    }
  }

  lemma {:induction false} AddLinesBodies(sections: seq<Section>, lines: seq<string>)
    ensures Bodies(AddLines(sections, lines)) == Bodies(sections) + Unlines(lines)
    decreases |lines|
  {
    if lines != [] {
      AddLineBodies(sections, lines[0]);
      AddLinesBodies(AddLine(sections, lines[0]), lines[1..]);
    }
  }

  /** One turn of the loop over the lines. */
  method TakeLine(before: seq<Section>, line: string) returns (sections: seq<Section>)
    ensures sections == AddLine(before, line)
  {
    sections := before;
    if GitHeader(line) || (OldHeader(line) && (sections == [] || sections[|sections| - 1].path.Some?)) {
      sections := sections + [Section(None, "")];
    }
    if sections == [] {
      sections := sections + [Section(None, "")];
    }
    var last := |sections| - 1;
    if PathOf(line).Some? {
      sections := sections[last := sections[last].(path := PathOf(line))];
    }
    sections := sections[last := sections[last].(body := sections[last].body + line + "\n")];
  }

  /** The section bodies hold the whole diff, in order, and nothing else but one line feed at the end. */
  method SplitDiffByFile(diff: string) returns (sections: seq<Section>)
    ensures sections == AddLines([], Lines(diff))
    ensures Bodies(sections) == diff + "\n"
  {
    var lines := Lines(diff);
    sections := [];
    assert lines[0..] == lines;
    for i := 0 to |lines|
      invariant AddLines(sections, lines[i..]) == AddLines([], lines)
    {
      assert lines[i..][1..] == lines[i + 1..];
      sections := TakeLine(sections, lines[i]);
    }
    UnlinesLines(diff);
    AddLinesBodies([], lines);
  }

  // ----- one section per file

  /**
   * The lines of one file of a git diff. A changed file has its header, the two path lines and the hunks. A file with no
   * post-image path, such as a deleted file (`+++ /dev/null`), a pure rename or a binary file, has its header and the rest.
   */
  datatype FileDiff =
    | Changed(git: string, meta: seq<string>, minus: string, path: string, hunks: seq<string>)
    | Pathless(git: string, rest: seq<string>)
  {
    function Path(): Option<string> { if Changed? then Some(path) else None }

    function Tail(): seq<string> { if Changed? then hunks else rest }
  }

  /** The header lines of the file are as git writes them. Nothing is asked of its hunks. */
  predicate WellFormed(f: FileDiff) {
    && GitHeader(f.git)
    && (f.Changed? ==>
          && OldHeader(f.minus) && f.path != "" && LineFree(f.path)
          && forall i :: 0 <= i < |f.meta| ==> !GitHeader(f.meta[i]) && PathOf(f.meta[i]).None?)
  }

  function FileLines(f: FileDiff): seq<string> {
    match f
    case Changed(git, meta, minus, path, hunks) => [git] + (meta + ([minus] + (["+++ b/" + path] + hunks)))
    case Pathless(git, rest) => [git] + rest
  }

  function AllLines(files: seq<FileDiff>): seq<string> {
    if files == [] then [] else FileLines(files[0]) + AllLines(files[1..])
  }

  function SectionOf(f: FileDiff): Section {
    Section(f.Path(), Unlines(FileLines(f)))
  }

  function SectionsOf(files: seq<FileDiff>): (sections: seq<Section>)
    ensures |sections| == |files| && forall i :: 0 <= i < |files| ==> sections[i] == SectionOf(files[i])
  {
    if files == [] then [] else [SectionOf(files[0])] + SectionsOf(files[1..])
  }

  /** The path of an open section after some more lines: the last one that a `+++ b/` line gives. */
  function PathAfter(lines: seq<string>, path: Option<string>): Option<string>
    decreases |lines|
  {
    if lines == [] then path else PathAfter(lines[1..], if PathOf(lines[0]).Some? then PathOf(lines[0]) else path)
  }

  /**
   * None of the lines looks like a header to a section with this path: none starts with `diff --git `, none starts with `--- `
   * if the section has a path, and the last `+++ b/` line, if there is one, has the path of the section.
   */
  predicate Plain(lines: seq<string>, path: Option<string>) {
    && (forall i :: 0 <= i < |lines| ==> !GitHeader(lines[i]) && (path.Some? ==> !OldHeader(lines[i])))
    && PathAfter(lines, path) == path
  }

  /** What git writes below the header lines of the file looks like no header. */
  predicate NoHeaderInHunks(f: FileDiff) {
    Plain(f.Tail(), f.Path())
  }

  /** No line of these opens a section after one with this path. */
  predicate Stays(lines: seq<string>, path: Option<string>)
    decreases |lines|
  {
    lines != [] ==>
      && !GitHeader(lines[0]) && (path.Some? ==> !OldHeader(lines[0]))
      && Stays(lines[1..], if PathOf(lines[0]).Some? then PathOf(lines[0]) else path)
  }

  lemma {:induction false} StaysIff(lines: seq<string>, path: Option<string>)
    ensures path.Some? ==> PathAfter(lines, path).Some?
    ensures path.Some? ==> (Stays(lines, path) <==> forall i :: 0 <= i < |lines| ==> !GitHeader(lines[i]) && !OldHeader(lines[i]))
    ensures path.None? && PathAfter(lines, path).None? ==>
              (Stays(lines, path) <==> forall i :: 0 <= i < |lines| ==> !GitHeader(lines[i]))
    decreases |lines|
  {
    if lines != [] {
      StaysIff(lines[1..], if PathOf(lines[0]).Some? then PathOf(lines[0]) else path);
      assert forall i :: 0 <= i < |lines[1..]| ==> lines[1..][i] == lines[i + 1];
      assert forall i :: 0 < i < |lines| ==> lines[i] == lines[1..][i - 1];
    }
  }

  lemma {:induction false} AddLinesSplits(sections: seq<Section>, a: seq<string>, b: seq<string>)
    ensures AddLines(sections, a + b) == AddLines(AddLines(sections, a), b)
    decreases |a|
  {
    if a == [] {
      assert a + b == b;
    } else {
      assert (a + b)[0] == a[0] && (a + b)[1..] == a[1..] + b;
      AddLinesSplits(AddLine(sections, a[0]), a[1..], b);
    }
  }

  lemma {:induction false} UnlinesJoins(a: seq<string>, b: seq<string>)
    ensures Unlines(a + b) == Unlines(a) + Unlines(b)
  {
    if a == [] {
      assert a + b == b;
    } else {
      assert (a + b)[1..] == a[1..] + b;
      UnlinesJoins(a[1..], b);
    }
  }

  /** Sections that are closed stay as they are, and no section goes away. */
  lemma {:induction false} ClosedStay(front: seq<Section>, s: Section, lines: seq<string>)
    ensures var out := AddLines(front + [s], lines); |out| > |front| && out[..|front|] == front
    decreases |lines|
  {
    if lines != [] {
      var all := front + [s];
      assert all[..|front|] == front;
      if Opens(all, lines[0]) {
        ClosedStay(all, Extend(Section(None, ""), lines[0]), lines[1..]);
        var out := AddLines(all, lines);
        assert out[..|front|] == out[..|all|][..|front|];
      } else {
        ClosedStay(front, Extend(s, lines[0]), lines[1..]);
      }
    }
  }

  /** Lines that open nothing stay in the open section, and any others make one more section. */
  lemma {:induction false} LinesInSection(front: seq<Section>, s: Section, lines: seq<string>)
    ensures var out := AddLines(front + [s], lines);
            if Stays(lines, s.path) then out == front + [Section(PathAfter(lines, s.path), s.body + Unlines(lines))]
            else |out| > |front| + 1
    decreases |lines|
  {
    if lines == [] {
      assert s.body + "" == s.body;
    } else {
      var all := front + [s];
      assert all[..|front|] == front;
      if Opens(all, lines[0]) {
        ClosedStay(all, Extend(Section(None, ""), lines[0]), lines[1..]);
      } else {
        LinesInSection(front, Extend(s, lines[0]), lines[1..]);
        assert s.body + lines[0] + "\n" + Unlines(lines[1..]) == s.body + Unlines(lines);
      }
    }
  }

  lemma {:induction false} HeadersAreApart(line: string, path: string)
    requires path != "" && LineFree(path)
    ensures GitHeader(line) ==> PathOf(line).None?
    ensures OldHeader(line) ==> PathOf(line).None? && !GitHeader(line)
    ensures PathOf("+++ b/" + path) == Some(path) && !GitHeader("+++ b/" + path) && !OldHeader("+++ b/" + path)
  {
    if GitHeader(line) { assert line[..11][0] == line[0]; }
    if OldHeader(line) { assert line[..4][0] == line[0]; }
    if |line| > 6 && line[..6] == "+++ b/" { assert line[..6][0] == line[0]; }
    var p := "+++ b/" + path;
    assert p[..6] == "+++ b/" && p[6..] == path && p[0] == '+';
    if |p| >= 11 { assert p[..11][0] == p[0]; }
    assert p[..4][0] == p[0];
  }

  /** The header lines of a file open one section, under the path of the file. */
  lemma {:induction false} HeaderSection(sections: seq<Section>, f: FileDiff) returns (s: Section)
    requires WellFormed(f)
    ensures s.path == f.Path() && s.body + Unlines(f.Tail()) == Unlines(FileLines(f))
    ensures AddLines(sections, FileLines(f)) == AddLines(sections + [s], f.Tail())
  {
    var s0 := Extend(Section(None, ""), f.git);
    HeadersAreApart(f.git, "x");
    UnlinesOne(f.git);
    OneLine(sections, f.git);
    assert s0.body == f.git + "\n";
    match f
    case Pathless(_, rest) =>
      AddLinesSplits(sections, [f.git], rest);
      UnlinesJoins([f.git], rest);
      s := s0;
    case Changed(_, meta, minus, path, hunks) =>
      HeadersAreApart(minus, path);
      var plus := "+++ b/" + path;
      AddLinesSplits(sections, [f.git], meta + ([minus] + ([plus] + hunks)));
      MetaStays(meta);
      LinesInSection(sections, s0, meta);
      var s1 := Section(None, s0.body + Unlines(meta));
      AddLinesSplits(sections + [s0], meta, [minus] + ([plus] + hunks));
      AddLinesSplits(sections + [s1], [minus], [plus] + hunks);
      StaysInLast(sections, s1, minus);
      var s2 := Extend(s1, minus);
      AddLinesSplits(sections + [s2], [plus], hunks);
      StaysInLast(sections, s2, plus);
      s := Extend(s2, plus);
      FileBody(f);
  }

  lemma {:induction false} MetaStays(meta: seq<string>)
    requires forall i :: 0 <= i < |meta| ==> !GitHeader(meta[i]) && PathOf(meta[i]).None?
    ensures Stays(meta, None) && PathAfter(meta, None) == None
  {
    if meta != [] {
      assert forall i :: 0 <= i < |meta[1..]| ==> meta[1..][i] == meta[i + 1];
      MetaStays(meta[1..]);
    }
  }

  lemma {:induction false} StaysInLast(front: seq<Section>, s: Section, line: string)
    requires !GitHeader(line) && (s.path.Some? ==> !OldHeader(line))
    ensures AddLines(front + [s], [line]) == front + [Extend(s, line)]
  {
    OneLine(front + [s], line);
    assert (front + [s])[..|front|] == front;
  }

  lemma {:induction false} OneLine(sections: seq<Section>, line: string)
    ensures AddLines(sections, [line]) == AddLine(sections, line)
  {
    assert [line][1..] == [];
  }

  lemma {:induction false} UnlinesOne(line: string)
    ensures Unlines([line]) == line + "\n"
  {
    assert [line][1..] == [];
  }

  lemma {:induction false} FileBody(f: FileDiff)
    requires f.Changed?
    ensures Unlines(FileLines(f))
         == "" + f.git + "\n" + Unlines(f.meta) + f.minus + "\n" + ("+++ b/" + f.path) + "\n" + Unlines(f.hunks)
  {
    var plus := "+++ b/" + f.path;
    UnlinesOne(f.git);
    UnlinesOne(f.minus);
    UnlinesOne(plus);
    hide Unlines;
    UnlinesJoins([f.git], f.meta + ([f.minus] + ([plus] + f.hunks)));
    UnlinesJoins(f.meta, [f.minus] + ([plus] + f.hunks));
    UnlinesJoins([f.minus], [plus] + f.hunks);
    UnlinesJoins([plus], f.hunks);
    Parts(f.git, "\n", Unlines(f.meta), f.minus, plus, Unlines(f.hunks));
  }

  lemma Parts(a: string, n: string, b: string, c: string, d: string, e: string)
    ensures "" + a + n + b + c + n + d + n + e == (a + n) + (b + ((c + n) + ((d + n) + e)))
  {
  }

  /** One file: it closes the sections before it, and it is one section under its path exactly when its hunks hold no header. */
  lemma {:induction false} FileSection(sections: seq<Section>, f: FileDiff)
    requires WellFormed(f)
    ensures var out := AddLines(sections, FileLines(f));
            && |out| > |sections| && out[..|sections|] == sections
            && (out == sections + [SectionOf(f)] <==> NoHeaderInHunks(f))
  {
    var s := HeaderSection(sections, f);
    var tail, path := f.Tail(), f.Path();
    ClosedStay(sections, s, tail);
    LinesInSection(sections, s, tail);
    StaysIff(tail, path);
    var out := AddLines(sections, FileLines(f));
    if Stays(tail, path) {
      assert out[|sections|] == Section(PathAfter(tail, path), Unlines(FileLines(f)));
    }
  }

  /** The sections before a list of files stay, and each file makes at least one more. */
  lemma {:induction false} FilesGrow(sections: seq<Section>, files: seq<FileDiff>)
    requires forall i :: 0 <= i < |files| ==> WellFormed(files[i])
    ensures var out := AddLines(sections, AllLines(files));
            |out| >= |sections| + |files| && out[..|sections|] == sections
    decreases |files|
  {
    if files != [] {
      var mid := AddLines(sections, FileLines(files[0]));
      FileSection(sections, files[0]);
      AddLinesSplits(sections, FileLines(files[0]), AllLines(files[1..]));
      FilesGrow(mid, files[1..]);
      var out := AddLines(sections, AllLines(files));
      assert out[..|sections|] == out[..|mid|][..|sections|];
    }
  }

  /**
   * A diff splits into one section for each file, with all its lines in it and under its own path, if and only if no hunk
   * holds a line that looks like a header. A file with no post-image path has a section with no path.
   */
  lemma {:induction false} OneSectionPerFile(sections: seq<Section>, files: seq<FileDiff>)
    requires forall i :: 0 <= i < |files| ==> WellFormed(files[i])
    ensures AddLines(sections, AllLines(files)) == sections + SectionsOf(files)
       <==> forall i :: 0 <= i < |files| ==> NoHeaderInHunks(files[i])
    decreases |files|
  {
    if files == [] {
      assert sections + [] == sections;
    } else {
      var f, rest := files[0], files[1..];
      var head, tail := [SectionOf(f)], SectionsOf(rest);
      assert SectionsOf(files) == head + tail && AllLines(files) == FileLines(f) + AllLines(rest);
      var mid, out := AddLines(sections, FileLines(f)), AddLines(sections, AllLines(files));
      assert forall i :: 0 <= i < |rest| ==> rest[i] == files[i + 1];
      assert (forall i :: 0 <= i < |files| ==> NoHeaderInHunks(files[i]))
        <==> NoHeaderInHunks(f) && forall i :: 0 <= i < |rest| ==> NoHeaderInHunks(rest[i]) by
      {
        assert forall i :: 0 < i < |files| ==> files[i] == rest[i - 1];
      }
      hide AddLines, FileLines, WellFormed, SectionOf, SectionsOf, AllLines, NoHeaderInHunks;
      FileSection(sections, f);
      AddLinesSplits(sections, FileLines(f), AllLines(rest));
      FilesGrow(mid, rest);
      OneSectionPerFile(mid, rest);
      SplitEnd(sections, mid, out, head, tail);
    }
  }

  /** Of two lists that both grow at the end, the last is exact if and only if each step is. */
  lemma SplitEnd<T>(first: seq<T>, mid: seq<T>, out: seq<T>, head: seq<T>, tail: seq<T>)
    requires |mid| >= |first| + |head| && |out| >= |mid| + |tail| && out[..|mid|] == mid
    ensures out == first + (head + tail) <==> mid == first + head && out == mid + tail
  {
    if out == first + (head + tail) { assert mid == out[..|mid|] == first + head && out == mid + tail; }
    if mid == first + head && out == mid + tail { assert out == first + (head + tail); }
  }

  /** A line that starts with `--- ` opens a section after one that has a path. */
  lemma {:induction false} OldHeaderCuts(sections: seq<Section>, line: string, below: seq<string>)
    requires sections != [] && sections[|sections| - 1].path.Some? && OldHeader(line) && Plain(below, None)
    ensures AddLines(sections, [line] + below) == sections + [Section(None, Unlines([line] + below))]
  {
    var s := Extend(Section(None, ""), line);
    HeadersAreApart(line, "x");
    AddLinesSplits(sections, [line], below);
    OneLine(sections, line);
    StaysIff(below, None);
    UnlinesOne(line);
    UnlinesJoins([line], below);
    assert s.body == line + "\n";
    LinesInSection(sections, s, below);
  }

  /** A hunk line that starts with `--- ` cuts the section of its file: the rest of the hunks has a section with no path. */
  lemma {:induction false} OldHeaderInHunks(sections: seq<Section>, f: FileDiff, above: seq<string>, line: string, below: seq<string>)
    requires WellFormed(f) && f.Changed? && f.hunks == above + ([line] + below)
    requires OldHeader(line) && Plain(above, f.Path()) && Plain(below, None)
    ensures var out := AddLines(sections, FileLines(f));
            && |out| == |sections| + 2 && out[..|sections|] == sections
            && out[|sections|].path == Some(f.path)
            && out[|sections| + 1] == Section(None, Unlines([line] + below))
  {
    var s := HeaderSection(sections, f);
    var first := Section(s.path, s.body + Unlines(above));
    StaysIff(above, s.path);
    LinesInSection(sections, s, above);
    hide AddLines, FileLines, Unlines, OldHeader, PathAfter, Stays;
    AddLinesSplits(sections + [s], above, [line] + below);
    OldHeaderCuts(sections + [first], line, below);
  }

  function SqlDiff(): FileDiff {
    Changed("diff --git a/q.sql b/q.sql", [], "--- a/q.sql", "q.sql", ["@@ -1,2 +1 @@", "--- old note", " select 1;"])
  }

  /**
   * The failing case: a hunk that deletes the comment `-- old note` of a SQL file. What follows counts under every glob, also
   * under one that leaves the file out.
   */
  lemma {:induction false} DeletedCommentOpensASection(m: Matcher, pattern: string, glob: string)
    requires !m.selects(glob, "q.sql")
    ensures WellFormed(SqlDiff()) && !NoHeaderInHunks(SqlDiff())
    ensures Count(m, pattern, AddLines([], FileLines(SqlDiff())), Some(glob)) == m.hits(pattern, "--- old note\n select 1;\n")
  {
    var f, above, line, below := SqlDiff(), ["@@ -1,2 +1 @@"], "--- old note", [" select 1;"];
    SqlHunks();
    SqlLines();
    hide *;
    OldHeaderInHunks([], f, above, line, below);
    CutCounts(m, pattern, AddLines([], FileLines(f)), glob, "q.sql");
  }

  lemma {:induction false} SqlHunks()
    ensures var f, line, below := SqlDiff(), "--- old note", [" select 1;"];
            && f.Changed? && f.path == "q.sql" && f.Path() == Some("q.sql")
            && f.hunks == ["@@ -1,2 +1 @@"] + ([line] + below)
            && Unlines([line] + below) == "--- old note\n select 1;\n"
  {
    var line, last := "--- old note", " select 1;";
    UnlinesOne(line);
    UnlinesOne(last);
    UnlinesJoins([line], [last]);
  }

  lemma {:induction false} SqlLines()
    ensures WellFormed(SqlDiff()) && OldHeader("--- old note")
    ensures Plain(["@@ -1,2 +1 @@"], Some("q.sql")) && Plain([" select 1;"], None)
    ensures !NoHeaderInHunks(SqlDiff())
  {
    OrdinaryLine("@@ -1,2 +1 @@", Some("q.sql"));
    OrdinaryLine(" select 1;", None);
    SqlHeaders();
    assert SqlDiff().Tail()[1] == "--- old note";
  }

  lemma SqlHeaders()
    ensures WellFormed(SqlDiff()) && OldHeader("--- old note")
  {
    assert "--- old note"[..4] == "--- " && "--- a/q.sql"[..4] == "--- ";
    assert "diff --git a/q.sql b/q.sql"[..11] == "diff --git ";
  }

  lemma OrdinaryLine(line: string, path: Option<string>)
    requires line != "" && line[0] != 'd' && line[0] != '-' && line[0] != '+'
    ensures Plain([line], path)
  {
    OtherStart(line);
    assert [line][1..] == [];
  }

  lemma OtherStart(line: string)
    requires line != "" && line[0] != 'd' && line[0] != '-' && line[0] != '+'
    ensures !GitHeader(line) && !OldHeader(line) && PathOf(line).None?
  {
    if |line| >= 11 { assert line[..11][0] == line[0]; }
    if |line| >= 4 { assert line[..4][0] == line[0]; }
    if |line| >= 6 { assert line[..6][0] == line[0]; }
  }

  /** Two sections, of which the glob leaves the first out and the second has no path. */
  lemma CutCounts(m: Matcher, pattern: string, sections: seq<Section>, glob: string, path: string)
    requires |sections| == 2 && sections[0].path == Some(path) && sections[1].path == None && !m.selects(glob, path)
    ensures Count(m, pattern, sections, Some(glob)) == m.hits(pattern, sections[1].body)
  {
    TwoSections(m, pattern, sections, Some(glob));
  }

  lemma TwoSections(m: Matcher, pattern: string, sections: seq<Section>, glob: Option<string>)
    requires |sections| == 2
    ensures Count(m, pattern, sections, glob)
         == (if Counts(m, glob, sections[0]) then m.hits(pattern, sections[0].body) else 0)
          + (if Counts(m, glob, sections[1]) then m.hits(pattern, sections[1].body) else 0)
  {
    assert sections[..1][..0] == [];
    assert Count(m, pattern, sections[..1], glob) == if Counts(m, glob, sections[0]) then m.hits(pattern, sections[0].body) else 0;
  }

  // ----- leaves

  datatype LeafKind = Grep | Structural | Heuristic

  datatype Leaf = Leaf(kind: LeafKind, pattern: string, fileGlob: Option<string>, threshold: Option<real>)

  datatype Node =
    | Check(leaf: Leaf)
    | AllOf(children: seq<Node>)
    | AnyOf(children: seq<Node>)
    | Not(child: Node)
    | Scope(fileGlob: Option<string>, phase: Option<string>, node: Node)

  datatype Finding = Violated(kind: LeafKind, file: Option<string>, pattern: string) | NegationPassed

  /** `hits` counts the matches of a pattern in a body. `selects` is the compiled glob on a path. */
  datatype Matcher = Matcher(hits: (string, string) -> nat, selects: (string, string) -> bool)

  predicate Counts(m: Matcher, glob: Option<string>, s: Section) {
    glob.None? || s.path.None? || m.selects(glob.value, s.path.value)
  }

  /** The matches in the sections that the glob does not exclude. */
  function Count(m: Matcher, pattern: string, sections: seq<Section>, glob: Option<string>): nat {
    if sections == [] then 0
    else
      var last := sections[|sections| - 1];
      Count(m, pattern, sections[..|sections| - 1], glob) + if Counts(m, glob, last) then m.hits(pattern, last.body) else 0
  }

  method CountIn(m: Matcher, pattern: string, sections: seq<Section>, glob: Option<string>) returns (count: nat)
    ensures count == Count(m, pattern, sections, glob)
  {
    count := 0;
    for i := 0 to |sections|
      invariant count == Count(m, pattern, sections[..i], glob)
    {
      assert sections[..i + 1][..i] == sections[..i];
      var section := sections[i];
      if glob.Some? && section.path.Some? && !m.selects(glob.value, section.path.value) {
        continue;
      }
      count := count + m.hits(pattern, section.body);
    }
    assert sections[..|sections|] == sections;
  }

  method CountMatches(m: Matcher, pattern: string, diff: string, glob: Option<string>) returns (count: nat)
    ensures count == Count(m, pattern, AddLines([], Lines(diff)), glob)
  {
    var sections := SplitDiffByFile(diff);
    count := CountIn(m, pattern, sections, glob);
  }

  function OrElse<T>(a: Option<T>, b: Option<T>): Option<T> {
    if a.Some? then a else b
  }

  /** `found` gives the match count of a pattern under a glob, in the diff at hand. */
  type Found = (string, Option<string>) -> nat

  predicate LeafPasses(leaf: Leaf, found: Found, scope: Option<string>) {
    var count := found(leaf.pattern, OrElse(leaf.fileGlob, scope));
    if leaf.kind.Grep? then count == 0 else count as real <= leaf.threshold.GetOr(0.0)
  }

  function EvaluateLeaf(leaf: Leaf, found: Found, scope: Option<string>): seq<Finding> {
    if LeafPasses(leaf, found, scope) then []
    else [Violated(leaf.kind, OrElse(leaf.fileGlob, scope), leaf.pattern)]
  }

  // ----- the tree

  predicate PhaseSkips(phase: Option<string>, current: Option<string>) {
    phase.Some? && current.Some? && phase != current
  }

  function Evaluate(node: Node, found: Found, scope: Option<string>, current: Option<string>): seq<Finding>
    decreases node
  {
    match node
    case Check(leaf) => EvaluateLeaf(leaf, found, scope)
    case AllOf(children) => EvaluateAll(children, found, scope, current)
    case AnyOf(children) =>
      if AnyChildPasses(children, found, scope, current) then [] else EvaluateAll(children, found, scope, current)
    case Not(child) => if Evaluate(child, found, scope, current) == [] then [NegationPassed] else []
    case Scope(glob, phase, inner) =>
      if PhaseSkips(phase, current) then [] else Evaluate(inner, found, OrElse(glob, scope), current)
  }

  function EvaluateAll(nodes: seq<Node>, found: Found, scope: Option<string>, current: Option<string>): seq<Finding>
    decreases nodes
  {
    if nodes == [] then []
    else Evaluate(nodes[0], found, scope, current) + EvaluateAll(nodes[1..], found, scope, current)
  }

  predicate AnyChildPasses(nodes: seq<Node>, found: Found, scope: Option<string>, current: Option<string>)
    decreases nodes
  {
    nodes != [] && (Evaluate(nodes[0], found, scope, current) == [] || AnyChildPasses(nodes[1..], found, scope, current))
  }

  // ----- scope elimination

  /** The tree with its scopes resolved: each leaf carries its effective glob, and a skipped subtree is an empty `all-of`. */
  function Resolve(node: Node, scope: Option<string>, current: Option<string>): Node
    decreases node
  {
    match node
    case Check(leaf) => Check(leaf.(fileGlob := OrElse(leaf.fileGlob, scope)))
    case AllOf(children) => AllOf(ResolveAll(children, scope, current))
    case AnyOf(children) => AnyOf(ResolveAll(children, scope, current))
    case Not(child) => Not(Resolve(child, scope, current))
    case Scope(glob, phase, inner) =>
      if PhaseSkips(phase, current) then AllOf([]) else Resolve(inner, OrElse(glob, scope), current)
  }

  function ResolveAll(nodes: seq<Node>, scope: Option<string>, current: Option<string>): seq<Node>
    decreases nodes
  {
    if nodes == [] then [] else [Resolve(nodes[0], scope, current)] + ResolveAll(nodes[1..], scope, current)
  }

  predicate ScopeFree(node: Node)
    decreases node
  {
    match node
    case Check(_) => true
    case AllOf(children) => forall c :: c in children ==> ScopeFree(c)
    case AnyOf(children) => forall c :: c in children ==> ScopeFree(c)
    case Not(child) => ScopeFree(child)
    case Scope(_, _, _) => false
  }

  /** Resolving the scopes keeps every finding, in order, and leaves no scope. */
  lemma {:induction false} ScopesResolve(node: Node, found: Found, scope: Option<string>, current: Option<string>)
    ensures ScopeFree(Resolve(node, scope, current))
    ensures Evaluate(node, found, scope, current) == Evaluate(Resolve(node, scope, current), found, None, None)
    decreases node
  {
    match node
    case Check(leaf) =>
    case AllOf(children) => ScopesResolveAll(children, found, scope, current);
    case AnyOf(children) => ScopesResolveAll(children, found, scope, current);
    case Not(child) => ScopesResolve(child, found, scope, current);
    case Scope(glob, phase, inner) =>
      if !PhaseSkips(phase, current) { ScopesResolve(inner, found, OrElse(glob, scope), current); }
  }

  lemma {:induction false} ScopesResolveAll(nodes: seq<Node>, found: Found, scope: Option<string>, current: Option<string>)
    ensures forall c :: c in ResolveAll(nodes, scope, current) ==> ScopeFree(c)
    ensures EvaluateAll(nodes, found, scope, current) == EvaluateAll(ResolveAll(nodes, scope, current), found, None, None)
    ensures AnyChildPasses(nodes, found, scope, current) <==> AnyChildPasses(ResolveAll(nodes, scope, current), found, None, None)
    decreases nodes
  {
    if nodes != [] {
      ScopesResolve(nodes[0], found, scope, current);
      ScopesResolveAll(nodes[1..], found, scope, current);
      assert ResolveAll(nodes, scope, current)[1..] == ResolveAll(nodes[1..], scope, current);
    }
  }

  // ----- the meaning of a tree on a diff

  /** The evaluation of a tree against a diff. */
  function EvaluateTree(node: Node, m: Matcher, diff: string, current: Option<string>): seq<Finding> {
    Evaluate(node, FoundIn(m, AddLines([], Lines(diff))), None, current)
  }

  function FoundIn(m: Matcher, sections: seq<Section>): Found {
    (pattern: string, glob: Option<string>) => Count(m, pattern, sections, glob)
  }

  /** The matches of one section, if the glob keeps it: a section with a path that the glob does not select has none. */
  function HitsAt(m: Matcher, pattern: string, s: Section, glob: Option<string>): nat {
    if glob.Some? && s.path.Some? && !m.selects(glob.value, s.path.value) then 0 else m.hits(pattern, s.body)
  }

  /** Running totals of the matches over the sections. */
  predicate Totals(totals: seq<nat>, m: Matcher, pattern: string, sections: seq<Section>, glob: Option<string>) {
    && |totals| == |sections| + 1 && totals[0] == 0
    && forall i :: 0 <= i < |sections| ==> totals[i + 1] == totals[i] + HitsAt(m, pattern, sections[i], glob)
  }

  /** The count is the last of the running totals, so it is zero exactly when no section that the glob keeps has a match. */
  lemma {:induction false} CountIsTheTotal(totals: seq<nat>, m: Matcher, pattern: string, sections: seq<Section>,
                                           glob: Option<string>)
    requires Totals(totals, m, pattern, sections, glob)
    ensures Count(m, pattern, sections, glob) == totals[|sections|]
    ensures Count(m, pattern, sections, glob) == 0 <==> forall i :: 0 <= i < |sections| ==> HitsAt(m, pattern, sections[i], glob) == 0
  {
    if sections != [] {
      var n := |sections| - 1;
      var init := sections[..n];
      assert forall i :: 0 <= i < n ==> init[i] == sections[i];
      CountIsTheTotal(totals[..n + 1], m, pattern, init, glob);
    }
  }

  lemma {:induction false} TotalsExist(m: Matcher, pattern: string, sections: seq<Section>, glob: Option<string>) returns (totals: seq<nat>)
    ensures Totals(totals, m, pattern, sections, glob)
  {
    if sections == [] {
      totals := [0];
    } else {
      var n := |sections| - 1;
      var init := TotalsExist(m, pattern, sections[..n], glob);
      totals := init + [init[n] + HitsAt(m, pattern, sections[n], glob)];
      assert forall i :: 0 <= i < n ==> sections[..n][i] == sections[i];
    }
  }

  /**
   * A leaf holds: a grep when no section that the glob keeps has a match, and any other leaf when the total of the matches is at
   * most its threshold, or zero without one.
   */
  ghost predicate LeafHolds(leaf: Leaf, m: Matcher, sections: seq<Section>, glob: Option<string>) {
    match leaf.kind
    case Grep => forall i :: 0 <= i < |sections| ==> HitsAt(m, leaf.pattern, sections[i], glob) == 0
    case _ =>
      forall totals :: Totals(totals, m, leaf.pattern, sections, glob) ==>
        totals[|sections|] as real <= if leaf.threshold.Some? then leaf.threshold.value else 0.0
  }

  /** The findings of a leaf: none if it holds under its own glob or else the scope glob, and else one with that glob. */
  lemma {:induction false} LeafFindings(leaf: Leaf, m: Matcher, sections: seq<Section>, scope: Option<string>, current: Option<string>)
    ensures var glob := if leaf.fileGlob.Some? then leaf.fileGlob else scope;
            Evaluate(Check(leaf), FoundIn(m, sections), scope, current) ==
              if LeafHolds(leaf, m, sections, glob) then [] else [Violated(leaf.kind, glob, leaf.pattern)]
  {
    var glob := if leaf.fileGlob.Some? then leaf.fileGlob else scope;
    var totals := TotalsExist(m, leaf.pattern, sections, glob);
    CountIsTheTotal(totals, m, leaf.pattern, sections, glob);
    forall others | Totals(others, m, leaf.pattern, sections, glob) ensures others[|sections|] == totals[|sections|] {
      CountIsTheTotal(others, m, leaf.pattern, sections, glob);
    }
  }

  /** A node counts as true, with an `any-of` without children taken as true. A scope of another phase is true. */
  ghost predicate Passes(node: Node, m: Matcher, sections: seq<Section>, scope: Option<string>, current: Option<string>)
    decreases node
  {
    match node
    case Check(leaf) => LeafHolds(leaf, m, sections, if leaf.fileGlob.Some? then leaf.fileGlob else scope)
    case AllOf(children) => forall c :: c in children ==> Passes(c, m, sections, scope, current)
    case AnyOf(children) => children == [] || exists c :: c in children && Passes(c, m, sections, scope, current)
    case Not(child) => !Passes(child, m, sections, scope, current)
    case Scope(glob, phase, inner) =>
      || (phase.Some? && current.Some? && phase.value != current.value)
      || Passes(inner, m, sections, if glob.Some? then glob else scope, current)
  }

  /** The boolean meaning of a node, in which an `any-of` needs a true child. */
  ghost predicate Meaning(node: Node, m: Matcher, sections: seq<Section>, scope: Option<string>, current: Option<string>)
    decreases node
  {
    match node
    case Check(leaf) => LeafHolds(leaf, m, sections, if leaf.fileGlob.Some? then leaf.fileGlob else scope)
    case AllOf(children) => forall c :: c in children ==> Meaning(c, m, sections, scope, current)
    case AnyOf(children) => exists c :: c in children && Meaning(c, m, sections, scope, current)
    case Not(child) => !Meaning(child, m, sections, scope, current)
    case Scope(glob, phase, inner) =>
      || (phase.Some? && current.Some? && phase.value != current.value)
      || Meaning(inner, m, sections, if glob.Some? then glob else scope, current)
  }

  predicate NoEmptyAnyOf(node: Node)
    decreases node
  {
    match node
    case Check(_) => true
    case AllOf(children) => forall c :: c in children ==> NoEmptyAnyOf(c)
    case AnyOf(children) => children != [] && forall c :: c in children ==> NoEmptyAnyOf(c)
    case Not(child) => NoEmptyAnyOf(child)
    case Scope(_, _, inner) => NoEmptyAnyOf(inner)
  }

  /** Every node under every scope: no finding if and only if it is true with each empty `any-of` taken as true. */
  lemma {:induction false} NoFindingIffPasses(node: Node, m: Matcher, sections: seq<Section>, scope: Option<string>,
                                              current: Option<string>)
    ensures Evaluate(node, FoundIn(m, sections), scope, current) == [] <==> Passes(node, m, sections, scope, current)
    decreases node
  {
    match node
    case Check(leaf) => LeafFindings(leaf, m, sections, scope, current);
    case AllOf(children) => AllFindings(children, m, sections, scope, current);
    case AnyOf(children) => AllFindings(children, m, sections, scope, current);
    case Not(child) => NoFindingIffPasses(child, m, sections, scope, current);
    case Scope(glob, phase, inner) => NoFindingIffPasses(inner, m, sections, if glob.Some? then glob else scope, current);
  }

  lemma {:induction false} AllFindings(nodes: seq<Node>, m: Matcher, sections: seq<Section>, scope: Option<string>,
                                       current: Option<string>)
    ensures EvaluateAll(nodes, FoundIn(m, sections), scope, current) == [] <==>
              forall c :: c in nodes ==> Passes(c, m, sections, scope, current)
    ensures AnyChildPasses(nodes, FoundIn(m, sections), scope, current) <==>
              exists c :: c in nodes && Passes(c, m, sections, scope, current)
    decreases nodes
  {
    if nodes != [] {
      NoFindingIffPasses(nodes[0], m, sections, scope, current);
      AllFindings(nodes[1..], m, sections, scope, current);
      assert forall c :: c in nodes <==> c == nodes[0] || c in nodes[1..];
    }
  }

  /** Without an empty `any-of` the two meanings are one. */
  lemma {:induction false} PassesIsMeaning(node: Node, m: Matcher, sections: seq<Section>, scope: Option<string>,
                                           current: Option<string>)
    requires NoEmptyAnyOf(node)
    ensures Passes(node, m, sections, scope, current) <==> Meaning(node, m, sections, scope, current)
    decreases node
  {
    match node
    case Check(leaf) =>
    case AllOf(children) =>
      forall c | c in children ensures Passes(c, m, sections, scope, current) <==> Meaning(c, m, sections, scope, current) {
        PassesIsMeaning(c, m, sections, scope, current);
      }
    case AnyOf(children) =>
      forall c | c in children ensures Passes(c, m, sections, scope, current) <==> Meaning(c, m, sections, scope, current) {
        PassesIsMeaning(c, m, sections, scope, current);
      }
    case Not(child) => PassesIsMeaning(child, m, sections, scope, current);
    case Scope(glob, phase, inner) => PassesIsMeaning(inner, m, sections, if glob.Some? then glob else scope, current);
  }

  /** A tree with no empty `any-of` has no finding on a diff if and only if its boolean meaning is true of the sections. */
  lemma {:induction false} TreePassesIffMeaning(node: Node, m: Matcher, diff: string, current: Option<string>)
    requires NoEmptyAnyOf(node)
    ensures EvaluateTree(node, m, diff, current) == [] <==> Meaning(node, m, AddLines([], Lines(diff)), None, current)
  {
    NoFindingIffPasses(node, m, AddLines([], Lines(diff)), None, current);
    PassesIsMeaning(node, m, AddLines([], Lines(diff)), None, current);
  }

  /** The failing case: an `any-of` with no child has no finding, against its boolean meaning. */
  lemma EmptyAnyOfPasses(m: Matcher, diff: string, current: Option<string>)
    ensures EvaluateTree(AnyOf([]), m, diff, current) == [] && !Meaning(AnyOf([]), m, AddLines([], Lines(diff)), None, current)
  {
  }

  lemma {:induction false} EvaluateAllJoins(a: seq<Node>, b: seq<Node>, found: Found, scope: Option<string>, current: Option<string>)
    ensures EvaluateAll(a + b, found, scope, current) == EvaluateAll(a, found, scope, current) + EvaluateAll(b, found, scope, current)
    decreases |a|
  {
    if a == [] {
      assert a + b == b;
    } else {
      assert (a + b)[0] == a[0] && (a + b)[1..] == a[1..] + b;
      hide Evaluate;
      EvaluateAllJoins(a[1..], b, found, scope, current);
    }
  }

  /** The findings of several children are those of each one, in order; an `any-of` that fails reports all of them. */
  lemma {:induction false} FindingsJoin(a: seq<Node>, n: Node, b: seq<Node>, found: Found, scope: Option<string>,
                                        current: Option<string>)
    ensures Evaluate(AllOf(a + b), found, scope, current)
         == Evaluate(AllOf(a), found, scope, current) + Evaluate(AllOf(b), found, scope, current)
    ensures Evaluate(AllOf([n]), found, scope, current) == Evaluate(n, found, scope, current)
    ensures var any := Evaluate(AnyOf(a), found, scope, current);
            any == [] || any == Evaluate(AllOf(a), found, scope, current)
    ensures Evaluate(Not(n), found, scope, current) == [] || Evaluate(Not(n), found, scope, current) == [NegationPassed]
  {
    EvaluateAllJoins(a, b, found, scope, current);
    var one := [n];
    assert EvaluateAll(one[1..], found, scope, current) == [];
    assert EvaluateAll(one, found, scope, current) == Evaluate(n, found, scope, current) + [];
  }
}
