/**
 * The scan roots of the import-boundary leg: the walk of one ownership glob over a readable directory
 * tree, and the merge of the roots of all globs.
 */
module ScanRoots {
  import opened Regex
  import opened Texts
  import opened Wrappers

  type Path = seq<string>

  datatype Kind = Directory | File

  /** Each directory of the tree with its entry names. */
  datatype Tree = Tree(listing: map<Path, seq<string>>)

  predicate Name(s: string) {
    s != "" && s != "." && s != ".." && '/' !in s
  }

  function Parent(p: Path): Path
    requires p != []
  {
    p[..|p| - 1]
  }

  function Last(p: Path): string
    requires p != []
  {
    p[|p| - 1]
  }

  ghost predicate WellFormed(tree: Tree) {
    && [] in tree.listing
    && (forall d, n :: d in tree.listing && n in tree.listing[d] ==> Name(n))
    && (forall d :: d in tree.listing && d != [] ==> Parent(d) in tree.listing && Last(d) in tree.listing[Parent(d)])
  }

  function KindOf(tree: Tree, p: Path): Option<Kind> {
    if p in tree.listing then Some(Directory)
    else if p != [] && Parent(p) in tree.listing && Last(p) in tree.listing[Parent(p)] then Some(File)
    else None
  }

  // ----- one segment

  /** The meaning of a glob segment: a star takes any name part, a question mark one character. */
  predicate SegmentMatches(segment: string, name: string)
    decreases |segment|, 1
  {
    if segment == "" then name == ""
    else if segment[0] == '*' then exists k :: 0 <= k <= |name| && StarTakes(segment, name, k)
    else
      name != "" && (if segment[0] == '?' then name[0] != '/' else name[0] == segment[0])
      && SegmentMatches(segment[1..], name[1..])
  }

  predicate StarTakes(segment: string, name: string, k: nat)
    requires segment != "" && k <= |name|
    decreases |segment|, 0
  {
    SlashFree(name[..k]) && SegmentMatches(segment[1..], name[k..])
  }

  lemma {:induction false} StarTaken(segment: string, name: string) returns (k: nat)
    requires SegmentMatches(segment, name) && segment != "" && segment[0] == '*'
    ensures k <= |name| && StarTakes(segment, name, k)
  {
    k :| 0 <= k <= |name| && StarTakes(segment, name, k);
  }

  predicate UnreadChar(c: char) {
    c == '[' || c == ']' || c == '{' || c == '}' || c == '(' || c == ')' || c == '!'
  }

  predicate HasGlob(segment: string) {
    exists i :: 0 <= i < |segment| && (segment[i] == '*' || segment[i] == '?' || UnreadChar(segment[i]))
  }

  predicate Unread(segment: string) {
    segment == "**" || exists i :: 0 <= i < |segment| && UnreadChar(segment[i])
  }

  function SegmentItem(ch: char): Item {
    if ch == '*' then Run else if ch == '?' then One else Lit(ch)
  }

  function SegmentItems(segment: string): seq<Item> {
    if segment == "" then []
    else [SegmentItem(segment[0])] + SegmentItems(segment[1..])
  }

  lemma {:induction false} ItemsMeanSegment(segment: string, name: string)
    ensures Matches(SegmentItems(segment), name) <==> SegmentMatches(segment, name)
    decreases |segment|
  {
    if segment != "" {
      var items := SegmentItems(segment);
      var rest := SegmentItems(segment[1..]);
      assert items[1..] == rest;
      forall k | 0 <= k <= |name| ensures Matches(rest, name[k..]) <==> SegmentMatches(segment[1..], name[k..]) {
        ItemsMeanSegment(segment[1..], name[k..]);
      }
      if SegmentMatches(segment, name) {
        if segment[0] == '*' {
          var k := StarTaken(segment, name);
          assert MatchesAt(items, name, k);
        } else {
          assert MatchesAt(items, name, 1);
        }
      }
      if Matches(items, name) {
        var k := MatchHead(items, name);
        if segment[0] == '*' { assert StarTakes(segment, name, k); }
        else { assert k == 1 && name[0] == name[..k][0]; }
      }
    }
  }

  /** The escape of the matcher, on a character that is not glob syntax. */
  function Escape(ch: char): string {
    if ch in ".+^$|\\" then ['\\', ch] else [ch]
  }

  lemma EscapeIsText(ch: char)
    requires ch != '*' && ch != '?' && !UnreadChar(ch)
    ensures Escape(ch) == Text(Lit(ch), false)
  {
  }

  lemma {:induction false} MatcherStep(segment: string, i: nat, before: string, text: string, whole: string)
    requires i < |segment| && before + Render(SegmentItems(segment[i..]), false) == whole
    requires text == Text(SegmentItem(segment[i]), false)
    ensures before + text + Render(SegmentItems(segment[i + 1..]), false) == whole
  {
    var tail := SegmentItems(segment[i + 1..]);
    assert segment[i..][1..] == segment[i + 1..];
    assert ([SegmentItem(segment[i])] + tail)[1..] == tail;
  }

  method SegmentMatcher(segment: string) returns (source: string)
    requires !Unread(segment)
    ensures source == "^" + Render(SegmentItems(segment), false) + "$"
    ensures forall name :: Accepts(source, name) <==> SegmentMatches(segment, name)
  {
    source := "";
    ghost var whole := Render(SegmentItems(segment), false);
    assert segment[0..] == segment;
    for i := 0 to |segment|
      invariant source + Render(SegmentItems(segment[i..]), false) == whole
    {
      var ch := segment[i];
      ghost var before := source;
      if ch == '*' {
        source := source + "[^/]*";
      } else if ch == '?' {
        source := source + "[^/]";
      } else {
        EscapeIsText(ch);
        source := source + Escape(ch);
      }
      MatcherStep(segment, i, before, Text(SegmentItem(ch), false), whole);
    }
    assert source == whole;
    source := "^" + source + "$";
    forall name ensures Accepts("^" + whole + "$", name) <==> SegmentMatches(segment, name) {
      AcceptsRendered(SegmentItems(segment), false, name);
      ItemsMeanSegment(segment, name);
    }
  }

  /** The test of the matcher on an entry name. */
  method SegmentTest(segment: string) returns (matches: string -> bool)
    requires !Unread(segment)
    ensures forall name :: matches(name) <==> SegmentMatches(segment, name)
  {
    var source := SegmentMatcher(segment);
    matches := name => Accepts(source, name);
  }

  lemma {:induction false} LiteralMatchesItself(segment: string, name: string)
    requires !HasGlob(segment)
    ensures SegmentMatches(segment, name) <==> name == segment
    decreases |segment|
  {
    if segment != "" && name != "" {
      LiteralMatchesItself(segment[1..], name[1..]);
      assert name == [name[0]] + name[1..] && segment == [segment[0]] + segment[1..];
    }
  }

  // ----- one glob

  /** The parts that are neither empty nor a dot. */
  function Meaningful(parts: seq<string>): seq<string> {
    if parts == [] then []
    else (if parts[0] == "" || parts[0] == "." then [] else [parts[0]]) + Meaningful(parts[1..])
  }

  function Segments(glob: string): seq<string> {
    Meaningful(Split(Trim(glob), '/'))
  }

  predicate Negated(glob: string) {
    Starts(Trim(glob), "!")
  }

  predicate Refused(glob: string) {
    Negated(glob) || Starts(Trim(glob), "/") || ".." in Segments(glob)
  }

  /** How many segments the walk reads: up to the first double star or the first syntax that it does not know. */
  function Stop(segments: seq<string>): (k: nat)
    ensures k <= |segments|
    ensures forall i :: 0 <= i < k ==> !Unread(segments[i])
    ensures k < |segments| ==> Unread(segments[k])
  {
    if segments == [] || Unread(segments[0]) then 0 else 1 + Stop(segments[1..])
  }

  /** The walk reads up to the first segment that is a double star or holds a bracket, a brace, a parenthesis or a mark. */
  lemma {:induction false} StopIff(segments: seq<string>, k: nat)
    ensures k == Stop(segments) <==>
              && k <= |segments|
              && (forall i :: 0 <= i < k ==> segments[i] != "**" && forall c :: c in segments[i] ==> c !in "[]{}()!")
              && (k < |segments| ==> segments[k] == "**" || exists c :: c in segments[k] && c in "[]{}()!")
  {
    forall i | 0 <= i < |segments| ensures Unread(segments[i]) <==> segments[i] == "**" || exists c :: c in segments[i] && c in "[]{}()!" {
      UnreadIs(segments[i]);
    }
  }

  lemma UnreadIs(segment: string)
    ensures Unread(segment) <==> segment == "**" || exists c :: c in segment && c in "[]{}()!"
  {
    forall c: char ensures UnreadChar(c) <==> c in "[]{}()!" {
    }
    if c :| c in segment && c in "[]{}()!" {
      var i :| 0 <= i < |segment| && segment[i] == c;
    }
  }

  predicate SegmentsMatch(segments: seq<string>, p: Path) {
    |segments| == |p| && forall i :: 0 <= i < |p| ==> SegmentMatches(segments[i], p[i])
  }

  predicate Reached(tree: Tree, segments: seq<string>, k: nat, p: Path)
    requires k <= |segments|
  {
    && SegmentsMatch(segments[..k], p)
    && (KindOf(tree, p) == Some(Directory) || (k == |segments| && KindOf(tree, p) == Some(File)))
  }

  /** A path is a root of a glob: it matches what the walk reads, and it is a directory or the file at the end of the glob. */
  predicate IsRoot(tree: Tree, glob: string, p: Path) {
    !Refused(glob) && var segments := Segments(glob); Reached(tree, segments, Stop(segments), p)
  }

  lemma {:induction false} AncestorsAreDirectories(tree: Tree, p: Path, k: nat)
    requires WellFormed(tree) && KindOf(tree, p).Some? && k < |p|
    ensures p[..k] in tree.listing
    decreases |p|
  {
    assert Parent(p) in tree.listing;
    if k < |p| - 1 {
      AncestorsAreDirectories(tree, Parent(p), k);
      assert Parent(p)[..k] == p[..k];
    }
  }

  /** The walk keeps a path of a parent: its name is offered and matches, and its kind can go on or end the glob. */
  predicate Kept(tree: Tree, segment: string, last: bool, p: Path)
    requires p != [] && Parent(p) in tree.listing
  {
    && Last(p) in Offered(tree, segment, Parent(p))
    && SegmentMatches(segment, Last(p))
    && (KindOf(tree, p) == Some(Directory) || (last && KindOf(tree, p) == Some(File)))
  }

  function Offered(tree: Tree, segment: string, parent: Path): seq<string>
    requires parent in tree.listing
  {
    if HasGlob(segment) then tree.listing[parent] else [segment]
  }

  predicate KeptChild(tree: Tree, segment: string, last: bool, parent: Path, name: string)
    requires parent in tree.listing
  {
    var p := parent + [name];
    assert Parent(p) == parent;
    Kept(tree, segment, last, p)
  }

  /** The tests of the walk on one offered name. */
  method KeepsChild(tree: Tree, parent: Path, segment: string, last: bool, name: string, matches: string -> bool)
    returns (kept: bool)
    requires parent in tree.listing && name in Offered(tree, segment, parent)
    requires matches(name) <==> SegmentMatches(segment, name)
    ensures kept <==> KeptChild(tree, segment, last, parent, name)
  {
    var rel := parent + [name];
    assert Parent(rel) == parent && Last(rel) == name;
    if !HasGlob(segment) { LiteralMatchesItself(segment, name); }
    var kind := KindOf(tree, rel);
    kept := (!HasGlob(segment) || matches(name)) && (kind == Some(Directory) || (last && kind == Some(File)));
  }

  /** The names of one candidate directory that the walk keeps. */
  method KeptNames(tree: Tree, parent: Path, segment: string, last: bool) returns (kept: seq<string>)
    requires !Unread(segment) && parent in tree.listing
    ensures forall n :: n in kept <==> n in Offered(tree, segment, parent) && KeptChild(tree, segment, last, parent, n)
  {
    kept := [];
    var matches := SegmentTest(segment);
    var names := Offered(tree, segment, parent);
    for j := 0 to |names|
      invariant forall n :: n in kept <==> n in names[..j] && KeptChild(tree, segment, last, parent, n)
    {
      var keeps := KeepsChild(tree, parent, segment, last, names[j], matches);
      if keeps { kept := kept + [names[j]]; }
    }
    assert names[..|names|] == names;
  }

  /** The paths of some names of a directory. */
  function Below(parent: Path, names: seq<string>): (paths: seq<Path>)
    ensures forall p :: p in paths <==> p != [] && Parent(p) == parent && Last(p) in names
  {
    if names == [] then []
    else
      var p := parent + [names[0]];
      assert Parent(p) == parent && Last(p) == names[0];
      assert forall q: Path :: q != [] && Parent(q) == parent && Last(q) == names[0] ==> q == p;
      [p] + Below(parent, names[1..])
  }

  lemma {:induction false} KeptChildren(tree: Tree, parent: Path, segment: string, last: bool, kept: seq<string>, p: Path)
    requires parent in tree.listing && p != [] && Parent(p) == parent
    requires forall n :: n in kept <==> n in Offered(tree, segment, parent) && KeptChild(tree, segment, last, parent, n)
    ensures Last(p) in kept <==> Kept(tree, segment, last, p)
  {
    assert p == parent + [Last(p)];
  }

  /** One step of the walk. */
  method Expand(tree: Tree, parents: seq<Path>, segment: string, last: bool) returns (out: seq<Path>)
    requires !Unread(segment)
    requires forall p :: p in parents ==> p in tree.listing
    ensures forall p :: p in out <==> p != [] && Parent(p) in parents && Kept(tree, segment, last, p)
  {
    out := [];
    for i := 0 to |parents|
      invariant forall p :: p in out <==> p != [] && Parent(p) in parents[..i] && Kept(tree, segment, last, p)
    {
      var kept := KeptNames(tree, parents[i], segment, last);
      ExpandStep(tree, parents, i, segment, last, kept);
      out := out + Below(parents[i], kept);
    }
    assert parents[..|parents|] == parents;
  }

  lemma {:induction false} ExpandStep(tree: Tree, parents: seq<Path>, i: nat, segment: string, last: bool, kept: seq<string>)
    requires forall p :: p in parents ==> p in tree.listing
    requires i < |parents|
    requires forall n :: n in kept <==> n in Offered(tree, segment, parents[i]) && KeptChild(tree, segment, last, parents[i], n)
    ensures forall p ::
              (p != [] && Parent(p) in parents[..i + 1] && Kept(tree, segment, last, p))
              <==> (p != [] && Parent(p) in parents[..i] && Kept(tree, segment, last, p)) || p in Below(parents[i], kept)
  {
    forall p | p != [] && Parent(p) == parents[i] ensures Last(p) in kept <==> Kept(tree, segment, last, p) {
      KeptChildren(tree, parents[i], segment, last, kept, p);
    }
  }

  /** A path that the walk reaches after one more segment: a kept child of one that it reached before. */
  lemma {:induction false} ReachedStep(tree: Tree, segments: seq<string>, k: nat, p: Path)
    requires WellFormed(tree) && k < |segments|
    ensures Reached(tree, segments, k + 1, p) <==>
              && p != [] && Parent(p) in tree.listing && Reached(tree, segments, k, Parent(p))
              && Kept(tree, segments[k], k + 1 == |segments|, p)
  {
    if p != [] {
      MatchStep(segments, k, p);
      if SegmentMatches(segments[k], Last(p)) && !HasGlob(segments[k]) { LiteralMatchesItself(segments[k], Last(p)); }
    }
  }

  lemma {:induction false} MatchStep(segments: seq<string>, k: nat, p: Path)
    requires k < |segments| && p != []
    ensures SegmentsMatch(segments[..k + 1], p)
       <==> SegmentsMatch(segments[..k], Parent(p)) && SegmentMatches(segments[k], Last(p))
  {
    var a, b := segments[..k + 1], segments[..k];
    if |p| == k + 1 {
      assert forall i :: 0 <= i < k ==> a[i] == b[i] && Parent(p)[i] == p[i];
      assert a[k] == segments[k] && p[k] == Last(p);
      if SegmentsMatch(a, p) { assert forall i :: 0 <= i < k ==> SegmentMatches(a[i], p[i]); }
    }
  }

  method ScanRootsOfGlob(tree: Tree, glob: string) returns (roots: seq<Path>)
    requires WellFormed(tree)
    ensures forall p :: p in roots <==> IsRoot(tree, glob, p)
  {
    var trimmed := Trim(glob);
    if Starts(trimmed, "!") || Starts(trimmed, "/") { return []; }
    var segments := Segments(glob);
    if ".." in segments { return []; }
    roots := [[]];
    var index := 0;
    while index < |segments|
      invariant 0 <= index <= Stop(segments)
      invariant forall p :: p in roots <==> Reached(tree, segments, index, p)
    {
      StopIsFirst(segments, index);
      if Unread(segments[index]) { break; }
      ghost var before := roots;
      roots := Expand(tree, roots, segments[index], index == |segments| - 1);
      forall p ensures p in roots <==> Reached(tree, segments, index + 1, p) {
        ReachedStep(tree, segments, index, p);
      }
      index := index + 1;
    }
    assert index == Stop(segments);
  }

  lemma StopIsFirst(segments: seq<string>, k: nat)
    requires k < |segments| && k <= Stop(segments)
    ensures Unread(segments[k]) <==> k == Stop(segments)
  {
  }

  // ----- what the roots of one glob hold

  /**
   * A path matches a glob segment by segment: name by name up to where the walk stops, and the rest of the
   * path by some reading of the rest of the glob, which is any relation at all.
   */
  predicate Selects(glob: string, p: Path, tail: (seq<string>, Path) -> bool) {
    var segments := Segments(glob);
    var k := Stop(segments);
    && k <= |p| && SegmentsMatch(segments[..k], p[..k])
    && if k == |segments| then |p| == k else tail(segments[k..], p[k..])
  }

  /** The names of the file match what the walk reads, and the walk reads the whole glob or the file has more names than that. */
  predicate Covers(glob: string, file: Path) {
    var segments := Segments(glob);
    var k := Stop(segments);
    !Refused(glob) && k <= |file| && SegmentsMatch(segments[..k], file[..k]) && (k == |segments| || |file| > k)
  }

  /** An existing file lies at or below a root of a glob exactly when the glob covers it. */
  lemma {:induction false} HasRootIffCovered(tree: Tree, glob: string, file: Path)
    requires WellFormed(tree) && KindOf(tree, file) == Some(File)
    ensures (exists root :: IsRoot(tree, glob, root) && root <= file) <==> Covers(glob, file)
  {
    var segments := Segments(glob);
    var k := Stop(segments);
    assert file[..|file|] == file;
    if k < |file| { AncestorsAreDirectories(tree, file, k); }
    if Covers(glob, file) { assert IsRoot(tree, glob, file[..k]); }
    forall root | IsRoot(tree, glob, root) && root <= file ensures Covers(glob, file) {
      assert root == file[..k];
    }
  }

  /**
   * A selected file lies at or below a root of its glob if and only if the walk reads the whole glob or the
   * file has more names than the walk reads segments.
   */
  lemma {:induction false} CoveredIff(tree: Tree, glob: string, file: Path, tail: (seq<string>, Path) -> bool)
    requires WellFormed(tree) && !Refused(glob) && KindOf(tree, file) == Some(File) && Selects(glob, file, tail)
    ensures (exists root :: IsRoot(tree, glob, root) && root <= file)
       <==> Stop(Segments(glob)) == |Segments(glob)| || |file| > Stop(Segments(glob))
  {
    HasRootIffCovered(tree, glob, file);
  }

  // ----- paths as text

  /** The text of a root. */
  function RootText(p: Path): string {
    if p == [] then "." else Join(p, '/')
  }

  predicate Names(p: Path) {
    forall i :: 0 <= i < |p| ==> Name(p[i])
  }

  /** On names, the text test for a root inside another root is the test for an ancestor. */
  lemma {:induction false} InsideIsBelow(a: Path, b: Path)
    requires a != [] && b != [] && Names(a) && Names(b)
    ensures Starts(Join(b, '/'), Join(a, '/') + ['/']) <==> a < b
  {
    var x, y := Join(a, '/'), Join(b, '/');
    if Starts(y, x + ['/']) {
      var rest := y[|x| + 1..];
      assert y == x + ['/'] + rest;
      SplitJoin(x, rest, '/');
      SplitOfJoin(a, '/');
      SplitOfJoin(b, '/');
    }
    if a < b {
      JoinOfConcat(a, b[|a|..], '/');
      assert b == a + b[|a|..];
    }
  }

  lemma {:induction false} JoinIsInjective(a: Path, b: Path)
    requires Names(a) && Names(b) && RootText(a) == RootText(b)
    ensures a == b
  {
    if a != [] { SplitOfJoin(a, '/'); }
    if b != [] { SplitOfJoin(b, '/'); }
    SplitOne(".", '/');
    assert !Names(["."]) by { assert !Name(["."][0]); }
  }

  lemma {:induction false} ExistingPathsAreNames(tree: Tree, p: Path)
    requires WellFormed(tree) && KindOf(tree, p).Some?
    ensures Names(p)
    decreases |p|
  {
    if p != [] {
      var parent, last := Parent(p), Last(p);
      ExistingPathsAreNames(tree, parent);
      assert last in tree.listing[parent] && Name(last);
      forall i | 0 <= i < |p| ensures Name(p[i]) {
        if i < |p| - 1 { assert p[i] == parent[i]; }
      }
    }
  }

  // ----- the roots of all globs

  /** Sorted with no duplicate. */
  predicate Ascending(xs: seq<string>) {
    forall i, j :: 0 <= i < j < |xs| ==> Less(xs[i], xs[j])
  }

  /** Adds one text to a sorted list without duplicates: the set and the sort of the source in one step. */
  method AddSorted(xs: seq<string>, x: string) returns (ys: seq<string>)
    requires Ascending(xs)
    ensures Ascending(ys) && forall y :: y in ys <==> y in xs || y == x
  {
    var i := 0;
    while i < |xs| && Less(xs[i], x)
      invariant 0 <= i <= |xs| && forall k :: 0 <= k < i ==> Less(xs[k], x)
    {
      i := i + 1;
    }
    if i < |xs| && xs[i] == x { return xs; }
    if i < |xs| {
      LessIsTotal(xs[i], x);
      forall k | i < k < |xs| ensures Less(x, xs[k]) { LessIsTransitive(x, xs[i], xs[k]); }
    }
    ys := xs[..i] + [x] + xs[i..];
    assert xs == xs[..i] + xs[i..];
  }

  datatype Scope = Scope(roots: seq<string>, dropped: seq<string>, excluded: seq<string>, widened: seq<string>)

  datatype Note = Dropped | Excluded | Widened

  /** Why the scan did not take a glob as written: it names no path, it is negated, or a root of it is the whole tree. */
  ghost predicate Noted(tree: Tree, note: Note, glob: string) {
    match note
    case Dropped => !Negated(glob) && forall p :: !IsRoot(tree, glob, p)
    case Excluded => Negated(glob)
    case Widened => IsRoot(tree, glob, [])
  }

  /** The globs with a note, in order. */
  ghost function Keep(tree: Tree, note: Note, globs: seq<string>): seq<string> {
    if globs == [] then []
    else
      var last := globs[|globs| - 1];
      Keep(tree, note, globs[..|globs| - 1]) + if Noted(tree, note, last) then [last] else []
  }

  lemma {:induction false} KeepStep(tree: Tree, note: Note, globs: seq<string>, glob: string)
    ensures Keep(tree, note, globs + [glob]) == Keep(tree, note, globs) + if Noted(tree, note, glob) then [glob] else []
  {
    assert (globs + [glob])[..|globs|] == globs;
  }

  predicate HasRoot(tree: Tree, globs: seq<string>, p: Path) {
    exists i :: 0 <= i < |globs| && IsRoot(tree, globs[i], p)
  }

  /** A returned root: a root of some glob with no root of any glob above it. */
  ghost predicate IsTopRoot(tree: Tree, globs: seq<string>, p: Path) {
    HasRoot(tree, globs, p) && forall q :: HasRoot(tree, globs, q) ==> !(q < p)
  }

  /** The texts are those of the roots of these globs. */
  ghost predicate TextsOfRoots(tree: Tree, globs: seq<string>, all: seq<string>) {
    && (forall p :: HasRoot(tree, globs, p) ==> RootText(p) in all)
    && (forall r :: r in all ==> exists p :: HasRoot(tree, globs, p) && r == RootText(p))
  }

  predicate InsideAnother(all: seq<string>, root: string) {
    exists i :: 0 <= i < |all| && all[i] != root && Starts(root, all[i] + ['/'])
  }

  method DropInner(all: seq<string>) returns (roots: seq<string>)
    requires Ascending(all)
    ensures Ascending(roots) && forall r :: r in roots <==> r in all && !InsideAnother(all, r)
  {
    roots := [];
    for i := 0 to |all|
      invariant Ascending(roots) && forall r :: r in roots <==> r in all[..i] && !InsideAnother(all, r)
      invariant forall j, k :: 0 <= j < |roots| && i <= k < |all| ==> Less(roots[j], all[k])
    {
      if !InsideAnother(all, all[i]) { roots := roots + [all[i]]; }
    }
    assert all[..|all|] == all;
  }

  method AddRoots(tree: Tree, ghost globs: seq<string>, all: seq<string>, glob: string, roots: seq<Path>)
    returns (more: seq<string>)
    requires Ascending(all) && TextsOfRoots(tree, globs, all)
    requires forall p :: p in roots <==> IsRoot(tree, glob, p)
    ensures Ascending(more) && TextsOfRoots(tree, globs + [glob], more)
  {
    more := all;
    for j := 0 to |roots|
      invariant Ascending(more)
      invariant forall r :: r in more <==> r in all || exists k :: 0 <= k < j && r == RootText(roots[k])
    {
      more := AddSorted(more, RootText(roots[j]));
    }
    ghost var next := globs + [glob];
    forall p ensures HasRoot(tree, next, p) <==> HasRoot(tree, globs, p) || IsRoot(tree, glob, p) {
      HasRootStep(tree, globs, glob, p);
    }
    forall p | HasRoot(tree, next, p) ensures RootText(p) in more {
      if p in roots { var k :| 0 <= k < |roots| && roots[k] == p; }
    }
    forall r | r in more ensures exists p :: HasRoot(tree, next, p) && r == RootText(p) {
      if r !in all {
        var k :| 0 <= k < |roots| && r == RootText(roots[k]);
        assert roots[k] in roots && HasRoot(tree, next, roots[k]);
      }
    }
  }

  lemma {:induction false} HasRootStep(tree: Tree, globs: seq<string>, glob: string, p: Path)
    ensures HasRoot(tree, globs + [glob], p) <==> HasRoot(tree, globs, p) || IsRoot(tree, glob, p)
  {
    var next := globs + [glob];
    assert next[|globs|] == glob;
    if HasRoot(tree, globs, p) {
      var i :| 0 <= i < |globs| && IsRoot(tree, globs[i], p);
      assert next[i] == globs[i];
    }
  }

  lemma {:induction false} RootsAreNames(tree: Tree, globs: seq<string>, p: Path)
    requires WellFormed(tree) && HasRoot(tree, globs, p)
    ensures Names(p)
  {
    ExistingPathsAreNames(tree, p);
  }

  /** The text test of the source keeps a root exactly when no other root is above it. */
  lemma {:induction false} OuterIsTop(tree: Tree, globs: seq<string>, all: seq<string>, p: Path)
    requires WellFormed(tree) && TextsOfRoots(tree, globs, all) && "." !in all && HasRoot(tree, globs, p)
    ensures !InsideAnother(all, RootText(p)) <==> IsTopRoot(tree, globs, p)
  {
    var r := RootText(p);
    RootsAreNames(tree, globs, p);
    if InsideAnother(all, r) {
      var i :| 0 <= i < |all| && all[i] != r && Starts(r, all[i] + ['/']);
      assert all[i] in all;
      var q :| HasRoot(tree, globs, q) && all[i] == RootText(q);
      RootsAreNames(tree, globs, q);
      InsideIsBelow(q, p);
      assert q < p;
    }
    if !IsTopRoot(tree, globs, p) {
      var q :| HasRoot(tree, globs, q) && q < p;
      RootsAreNames(tree, globs, q);
      InsideIsBelow(q, p);
      var o := RootText(q);
      assert o in all;
      var i :| 0 <= i < |all| && all[i] == o;
      if o == r { JoinIsInjective(p, q); }
    }
  }

  lemma {:induction false} NoteRoots(tree: Tree, globs: seq<string>, glob: string, roots: seq<Path>)
    requires forall p :: p in roots <==> IsRoot(tree, glob, p)
    ensures Noted(tree, Dropped, glob) <==> roots == [] && !Negated(glob)
    ensures Noted(tree, Widened, glob) <==> [] in roots
    ensures forall note ::
              Keep(tree, note, globs + [glob]) == Keep(tree, note, globs) + if Noted(tree, note, glob) then [glob] else []
  {
    if roots != [] { assert roots[0] in roots; }
    forall note
      ensures Keep(tree, note, globs + [glob]) == Keep(tree, note, globs) + if Noted(tree, note, glob) then [glob] else []
    {
      KeepStep(tree, note, globs, glob);
    }
  }

  method FirstPartyScanRoots(tree: Tree, globs: seq<string>) returns (scope: Scope)
    requires WellFormed(tree)
    ensures Ascending(scope.roots)
    ensures forall p :: IsTopRoot(tree, globs, p) ==> RootText(p) in scope.roots
    ensures forall r :: r in scope.roots ==> exists p :: IsTopRoot(tree, globs, p) && r == RootText(p)
    ensures scope.dropped == Keep(tree, Dropped, globs)
    ensures scope.excluded == Keep(tree, Excluded, globs)
    ensures scope.widened == Keep(tree, Widened, globs)
  {
    hide IsRoot, RootText, Less;
    var all: seq<string>, dropped: seq<string>, excluded: seq<string>, widened: seq<string> := [], [], [], [];
    for i := 0 to |globs|
      invariant Ascending(all) && TextsOfRoots(tree, globs[..i], all)
      invariant dropped == Keep(tree, Dropped, globs[..i])
      invariant excluded == Keep(tree, Excluded, globs[..i])
      invariant widened == Keep(tree, Widened, globs[..i])
    {
      var glob := globs[i];
      var roots := ScanRootsOfGlob(tree, glob);
      NoteRoots(tree, globs[..i], glob, roots);
      assert globs[..i + 1] == globs[..i] + [glob];
      all := AddRoots(tree, globs[..i], all, glob, roots);
      if Negated(glob) { excluded := excluded + [glob]; }
      if roots == [] && !Negated(glob) { dropped := dropped + [glob]; }
      if [] in roots { widened := widened + [glob]; }
    }
    assert globs[..|globs|] == globs;
    var top := TopRoots(tree, globs, all);
    scope := Scope(top, dropped, excluded, widened);
  }

  /** The root of the tree replaces all other roots. */
  lemma {:induction false} RootOfAll(tree: Tree, globs: seq<string>, all: seq<string>)
    requires WellFormed(tree) && TextsOfRoots(tree, globs, all) && "." in all
    ensures forall q :: IsTopRoot(tree, globs, q) <==> q == []
    ensures RootText([]) == "."
  {
    var p :| HasRoot(tree, globs, p) && "." == RootText(p);
    RootsAreNames(tree, globs, p);
    JoinIsInjective(p, []);
    forall q | q != [] ensures !IsTopRoot(tree, globs, q) { assert [] < q; }
  }

  method TopRoots(tree: Tree, ghost globs: seq<string>, all: seq<string>) returns (roots: seq<string>)
    requires WellFormed(tree) && Ascending(all) && TextsOfRoots(tree, globs, all)
    ensures Ascending(roots)
    ensures forall p :: IsTopRoot(tree, globs, p) ==> RootText(p) in roots
    ensures forall r :: r in roots ==> exists p :: IsTopRoot(tree, globs, p) && r == RootText(p)
  {
    if "." in all {
      RootOfAll(tree, globs, all);
      return ["."];
    }
    roots := DropInner(all);
    forall p | HasRoot(tree, globs, p) ensures RootText(p) in roots <==> IsTopRoot(tree, globs, p) {
      OuterIsTop(tree, globs, all, p);
    }
  }

  // ----- what the roots of all globs hold

  /** Every root of a glob lies at or below a returned root. */
  lemma {:induction false} RootsAreCovered(tree: Tree, globs: seq<string>, p: Path) returns (top: Path)
    requires HasRoot(tree, globs, p)
    ensures IsTopRoot(tree, globs, top) && top <= p
    decreases |p|
  {
    if IsTopRoot(tree, globs, p) { return p; }
    var q :| HasRoot(tree, globs, q) && q < p;
    top := RootsAreCovered(tree, globs, q);
  }

  /** No returned root lies inside another, and different roots have different texts. */
  lemma {:induction false} RootsAreAnAntichain(tree: Tree, globs: seq<string>, p: Path, q: Path)
    requires WellFormed(tree) && IsTopRoot(tree, globs, p) && IsTopRoot(tree, globs, q)
    requires p <= q || RootText(p) == RootText(q) || Starts(RootText(q), RootText(p) + ['/'])
    ensures p == q
  {
    RootsAreNames(tree, globs, p);
    RootsAreNames(tree, globs, q);
    if RootText(p) == RootText(q) { JoinIsInjective(p, q); }
    if p != [] && q != [] { InsideIsBelow(p, q); }
  }

  /** An existing file lies at or below a returned root if and only if some glob of the list covers it. */
  lemma {:induction false} ScannedIff(tree: Tree, globs: seq<string>, file: Path)
    requires WellFormed(tree) && KindOf(tree, file) == Some(File)
    ensures (exists top :: IsTopRoot(tree, globs, top) && top <= file) <==> exists i :: 0 <= i < |globs| && Covers(globs[i], file)
  {
    forall i | 0 <= i < |globs| ensures (exists root :: IsRoot(tree, globs[i], root) && root <= file) <==> Covers(globs[i], file) {
      HasRootIffCovered(tree, globs[i], file);
    }
    if i :| 0 <= i < |globs| && Covers(globs[i], file) {
      var root :| IsRoot(tree, globs[i], root) && root <= file;
      var top := RootsAreCovered(tree, globs, root);
    }
  }

  // ----- the spelling of a glob

  lemma {:induction false} MeaningfulJoins(a: seq<string>, b: seq<string>)
    ensures Meaningful(a + b) == Meaningful(a) + Meaningful(b)
  {
    if a == [] {
      assert a + b == b;
    } else {
      assert (a + b)[1..] == a[1..] + b;
      MeaningfulJoins(a[1..], b);
    }
  }

  /** A glob that starts with a name has neither white space nor a mark before it. */
  predicate StartsPlain(glob: string) {
    glob != "" && !IsSpace(glob[0]) && glob[0] != '!' && glob[0] != '/'
  }

  lemma {:induction false} TrimEndAfter(front: string, s: string)
    requires front != "" && !IsSpace(front[|front| - 1])
    ensures TrimEnd(front + s) == front + TrimEnd(s)
    decreases |s|
  {
    if s == "" {
      assert front + s == front;
    } else {
      assert (front + s)[..|front + s| - 1] == front + s[..|s| - 1];
      if IsSpace(s[|s| - 1]) { TrimEndAfter(front, s[..|s| - 1]); }
    }
  }

  /** A dot segment before a glob changes none of its segments and not whether it is refused. */
  lemma {:induction false} DotIsNoSegment(g: string)
    requires StartsPlain(g)
    ensures Segments("./" + g) == Segments(g) && (Refused("./" + g) <==> Refused(g))
  {
    var dotted, t := "./" + g, TrimEnd(g);
    TrimEndAfter("./", g);
    assert TrimStart(dotted) == dotted && TrimStart(g) == g;
    TrimEndStart(g);
    assert Trim(dotted) == "./" + t && Trim(g) == t;
    SplitJoin(".", t, '/');
    SplitOne(".", '/');
    assert "./" + t == "." + ['/'] + t;
    MeaningfulJoins(["."], Split(t, '/'));
    assert ["."][1..] == [];
    assert Meaningful(["."]) == [];
    assert ("./" + t)[0] == '.';
  }

  lemma {:induction false} TrimEndStart(s: string)
    requires s != "" && !IsSpace(s[0])
    ensures TrimEnd(s) != "" && TrimEnd(s)[0] == s[0]
  {
    if IsSpace(s[|s| - 1]) { TrimEndStart(s[..|s| - 1]); }
  }

  /** So `./g` and `g` have the same roots. */
  lemma {:induction false} DotGlobHasTheSameRoots(tree: Tree, g: string, p: Path)
    requires StartsPlain(g)
    ensures IsRoot(tree, "./" + g, p) <==> IsRoot(tree, g, p)
  {
    DotIsNoSegment(g);
  }

  lemma {:induction false} SegmentsOfJoin(parts: seq<string>)
    requires parts != [] && (forall i :: 0 <= i < |parts| ==> '/' !in parts[i]) && Trim(Join(parts, '/')) == Join(parts, '/')
    ensures Segments(Join(parts, '/')) == Meaningful(parts)
  {
    SplitOfJoin(parts, '/');
  }

  /** A double slash or a dot segment inside a glob is no segment either: the segments are the names between the slashes. */
  lemma {:induction false} SegmentsAreNames(names: seq<string>, empty: seq<string>, more: seq<string>)
    requires forall i :: 0 <= i < |names| ==> '/' !in names[i] && names[i] != "" && names[i] != "."
    requires forall i :: 0 <= i < |more| ==> '/' !in more[i] && more[i] != "" && more[i] != "."
    requires forall i :: 0 <= i < |empty| ==> empty[i] == "" || empty[i] == "."
    requires names + empty + more != [] && Trim(Join(names + empty + more, '/')) == Join(names + empty + more, '/')
    ensures Segments(Join(names + empty + more, '/')) == names + more
  {
    MeaningfulNames(names);
    MeaningfulNames(more);
    MeaningfulEmpty(empty);
    hide Join, Trim, Segments, Meaningful;
    MeaningfulJoins(names + empty, more);
    MeaningfulJoins(names, empty);
    assert names + [] == names;
    SegmentsOfJoin(names + empty + more);
  }

  lemma {:induction false} MeaningfulNames(names: seq<string>)
    requires forall i :: 0 <= i < |names| ==> names[i] != "" && names[i] != "."
    ensures Meaningful(names) == names
  {
    if names != [] { MeaningfulNames(names[1..]); }
  }

  lemma {:induction false} MeaningfulEmpty(empty: seq<string>)
    requires forall i :: 0 <= i < |empty| ==> empty[i] == "" || empty[i] == "."
    ensures Meaningful(empty) == []
  {
    if empty != [] { MeaningfulEmpty(empty[1..]); }
  }

  const SRC_FILE := Tree(map[[] := ["src"]])
  const SRC_GLOB := "src/**"

  lemma {:induction false} SrcFileExists()
    ensures WellFormed(SRC_FILE) && KindOf(SRC_FILE, ["src"]) == Some(File)
  {
    assert SRC_FILE.listing.Keys == {[]};
    assert Parent(["src"]) == [];
  }

  predicate IsDoubleStar(segments: seq<string>, p: Path) {
    segments == ["**"]
  }

  /** A plain name and a double star: a file of that name is selected, and it has no root. */
  lemma {:induction false} PlainThenDoubleStar(tree: Tree, glob: string, name: string)
    requires WellFormed(tree) && !Refused(glob) && KindOf(tree, [name]) == Some(File)
    requires Segments(glob) == [name, "**"] && !HasGlob(name) && !Unread(name)
    ensures Selects(glob, [name], IsDoubleStar)
    ensures !exists root :: IsRoot(tree, glob, root) && root <= [name]
  {
    var segments := Segments(glob);
    LiteralMatchesItself(name, name);
    assert segments[1..] == ["**"] && segments[..1] == [name] && [name][..1] == [name];
    CoveredIff(tree, glob, [name], IsDoubleStar);
  }

  // A file named like the read part of a glob is missed: "src/**" selects a file "src", and no returned root holds it.
  lemma {:induction false} FileNamedLikeThePrefixIsMissed()
    ensures WellFormed(SRC_FILE) && KindOf(SRC_FILE, ["src"]) == Some(File)
    ensures !Refused(SRC_GLOB) && Selects(SRC_GLOB, ["src"], IsDoubleStar)
    ensures !exists top :: IsTopRoot(SRC_FILE, [SRC_GLOB], top) && top <= ["src"]
  {
    SrcFileExists();
    SrcSegments();
    SrcIsPlain();
    PlainThenDoubleStar(SRC_FILE, SRC_GLOB, "src");
    assert [SRC_GLOB][0] == SRC_GLOB;
  }

  lemma SrcIsPlain()
    ensures !HasGlob("src") && !Unread("src")
  {
  }

  lemma {:induction false} SrcSegments()
    ensures Segments(SRC_GLOB) == ["src", "**"] && !Refused(SRC_GLOB)
  {
    SrcIsTrimmed();
    SrcParts();
    assert ["src", "**"][1..] == ["**"] && Meaningful(["**"]) == ["**"];
  }

  lemma SrcIsTrimmed()
    ensures Trim(SRC_GLOB) == SRC_GLOB && !Starts(SRC_GLOB, "!") && !Starts(SRC_GLOB, "/")
  {
  }

  lemma {:induction false} SrcParts()
    ensures Split(SRC_GLOB, '/') == ["src", "**"]
  {
    SplitJoin("src", "**", '/');
    SplitOne("src", '/');
    SplitOne("**", '/');
    assert SRC_GLOB == "src" + ['/'] + "**";
  }
}
