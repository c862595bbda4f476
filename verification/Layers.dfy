/**
 * The layer census: the layer of a module, the target of a relative import, the edges of a module, and the
 * verdict that compares the edges with the declared allowances.
 */
module Layers {
  import opened Texts
  import opened Wrappers

  // ----- the layer of a module

  const ROOT_LAYER := "<root>"

  /** A declared id is the module or a directory above it. */
  predicate Owns(id: string, m: string) {
    m == id || Starts(m, id + "/")
  }

  function FirstSegment(m: string): string {
    Split(m, '/')[0]
  }

  /** The longest declared prefix of a module, else its first directory, else the root layer. */
  ghost predicate IsLayerOf(m: string, ids: seq<string>, layer: string) {
    if exists id :: id in ids && Owns(id, m)
    then layer in ids && Owns(layer, m) && forall id :: id in ids && Owns(id, m) ==> |id| <= |layer|
    else layer == if '/' in m then FirstSegment(m) else ROOT_LAYER
  }

  /** Two declared prefixes of one length are the same, so the layer does not depend on the order of the ids. */
  lemma {:induction false} LayerIsUnique(m: string, ids: seq<string>, others: seq<string>, a: string, b: string)
    requires forall id :: id in ids <==> id in others
    requires IsLayerOf(m, ids, a) && IsLayerOf(m, others, b)
    ensures a == b
  {
    if id :| id in ids && Owns(id, m) {
      assert |a| == |b|;
      OwnerIsPrefix(a, m);
      OwnerIsPrefix(b, m);
    }
  }

  lemma {:induction false} OwnerIsPrefix(id: string, m: string)
    requires Owns(id, m)
    ensures |id| <= |m| && m[..|id|] == id
  {
    if m != id { assert m[..|id| + 1][..|id|] == (id + "/")[..|id|]; }
  }

  method LayerOf(m: string, ids: seq<string>) returns (layer: string)
    ensures IsLayerOf(m, ids, layer)
  {
    var owner: Option<string> := None;
    for i := 0 to |ids|
      invariant owner.None? ==> forall k :: 0 <= k < i ==> !Owns(ids[k], m)
      invariant owner.Some? ==>
                  && owner.value in ids[..i] && Owns(owner.value, m)
                  && forall k :: 0 <= k < i && Owns(ids[k], m) ==> |ids[k]| <= |owner.value|
    {
      var id := ids[i];
      if m != id && !Starts(m, id + "/") { continue; }
      if owner.None? || |id| > |owner.value| { owner := Some(id); }
    }
    if owner.Some? { return owner.value; }
    var slash := IndexOf(m, '/');
    if slash == |m| { return ROOT_LAYER; }
    FirstPart(m, slash);
    return m[..slash];
  }

  /** The first index of a character, or the length. */
  method IndexOf(s: string, c: char) returns (i: nat)
    ensures i <= |s| && c !in s[..i] && (i < |s| ==> s[i] == c)
  {
    i := 0;
    while i < |s| && s[i] != c
      invariant 0 <= i <= |s| && c !in s[..i]
    {
      i := i + 1;
    }
  }

  lemma {:induction false} FirstPart(m: string, slash: nat)
    requires slash < |m| && m[slash] == '/' && '/' !in m[..slash]
    ensures FirstSegment(m) == m[..slash]
  {
    SplitOne(m[..slash], '/');
    SplitJoin(m[..slash], m[slash + 1..], '/');
    assert m == m[..slash] + ['/'] + m[slash + 1..];
  }

  // ----- the target of an import

  /** What a relative path does: it goes up some directories, then down some names. */
  datatype Move = Move(ups: nat, names: seq<string>)

  function PartMove(part: string): Move {
    if part == "" || part == "." then Move(0, []) else if part == ".." then Move(1, []) else Move(0, [part])
  }

  /** One move after another: going up first takes back names of the move before. */
  function Then(a: Move, b: Move): Move {
    if b.ups <= |a.names| then Move(a.ups, a.names[..|a.names| - b.ups] + b.names)
    else Move(a.ups + b.ups - |a.names|, b.names)
  }

  /** What the parts of a path do together. It is read from the right, with no stack. */
  function Moves(parts: seq<string>): Move {
    if parts == [] then Move(0, []) else Then(PartMove(parts[0]), Moves(parts[1..]))
  }

  /** Where a move leads from a directory. It leads nowhere when it goes up past the root. */
  function Lead(dir: seq<string>, m: Move): Option<seq<string>> {
    if m.ups > |dir| then None else Some(dir[..|dir| - m.ups] + m.names)
  }

  lemma {:induction false} ThenIsAssociative(a: Move, b: Move, c: Move)
    ensures Then(Then(a, b), c) == Then(a, Then(b, c))
  {
    if b.ups <= |a.names| && c.ups > |b.names| {
      assert (a.names[..|a.names| - b.ups] + b.names)[..|a.names| - b.ups] == a.names[..|a.names| - b.ups];
      if c.ups - |b.names| <= |a.names| - b.ups {
        assert (a.names[..|a.names| - b.ups] + b.names)[..|a.names| - b.ups + |b.names| - c.ups]
            == a.names[..|a.names| - b.ups + |b.names| - c.ups];
      }
    } else if b.ups <= |a.names| {
      assert (a.names[..|a.names| - b.ups] + b.names)[..|a.names| - b.ups + |b.names| - c.ups]
          == a.names[..|a.names| - b.ups] + b.names[..|b.names| - c.ups];
    }
  }

  /** Two paths one after the other lead where their moves lead: path resolution composes. */
  lemma {:induction false} MovesCompose(a: seq<string>, b: seq<string>)
    ensures Moves(a + b) == Then(Moves(a), Moves(b))
  {
    if a == [] {
      assert a + b == b && Moves(b).names[..] == Moves(b).names;
      assert Then(Move(0, []), Moves(b)) == Moves(b);
    } else {
      assert (a + b)[0] == a[0] && (a + b)[1..] == a[1..] + b;
      MovesCompose(a[1..], b);
      ThenIsAssociative(PartMove(a[0]), Moves(a[1..]), Moves(b));
    }
  }

  /** Going on from where a move leads is the composed move, and a dead end stays one. */
  lemma {:induction false} LeadThen(dir: seq<string>, a: Move, b: Move)
    ensures Lead(dir, a).None? ==> Lead(dir, Then(a, b)).None?
    ensures Lead(dir, a).Some? ==> Lead(Lead(dir, a).value, b) == Lead(dir, Then(a, b))
  {
    if Lead(dir, a).Some? {
      var at := Lead(dir, a).value;
      if b.ups <= |at| {
        if b.ups <= |a.names| {
          assert at[..|at| - b.ups] == dir[..|dir| - a.ups] + a.names[..|a.names| - b.ups];
          assert at[..|at| - b.ups] + b.names == dir[..|dir| - a.ups] + (a.names[..|a.names| - b.ups] + b.names);
        } else {
          assert at[..|at| - b.ups] == dir[..|dir| - a.ups + |a.names| - b.ups];
        }
      }
    }
  }

  /** The compiled extensions name the source of a module. */
  function SourceName(path: string): string {
    if Ends(path, ".js") then path[..|path| - 3] + ".ts"
    else if Ends(path, ".jsx") || Ends(path, ".mjs") || Ends(path, ".cjs") then path[..|path| - 4] + ".ts"
    else path
  }

  predicate Ends(s: string, suffix: string) {
    |suffix| <= |s| && s[|s| - |suffix|..] == suffix
  }

  function DirOf(m: string): seq<string> {
    var parts := Split(m, '/');
    parts[..|parts| - 1]
  }

  /** The target of an import, by path resolution from the directory of the module. */
  function Target(m: string, specifier: string): Option<string> {
    if !Starts(specifier, ".") then None
    else
      match Lead(DirOf(m), Moves(Split(specifier, '/')))
      case None => None
      case Some(path) => if path == [] then None else Some(SourceName(Join(path, '/')))
  }

  method ResolveTarget(m: string, specifier: string) returns (target: Option<string>)
    ensures target == Target(m, specifier)
  {
    if !Starts(specifier, ".") { return None; }
    var dir := DirOf(m);
    var stack := dir;
    var parts := Split(specifier, '/');
    assert dir[..|dir|] == dir && dir + [] == dir;
    for i := 0 to |parts|
      invariant Lead(dir, Moves(parts[..i])) == Some(stack)
    {
      var part := parts[i];
      PartLeads(dir, parts, i, stack);
      if part == "" || part == "." { continue; }
      if part == ".." {
        if |stack| == 0 { return None; }
        stack := stack[..|stack| - 1];
        continue;
      }
      stack := stack + [part];
    }
    assert parts[..|parts|] == parts;
    if |stack| == 0 { return None; }
    return Some(SourceName(Join(stack, '/')));
  }

  /** One turn of the loop: the stack is where the parts so far lead, and an escape is final. */
  lemma {:induction false} PartLeads(dir: seq<string>, parts: seq<string>, i: nat, stack: seq<string>)
    requires i < |parts| && Lead(dir, Moves(parts[..i])) == Some(stack)
    ensures Lead(dir, Moves(parts[..i + 1])) == Lead(stack, PartMove(parts[i]))
    ensures Lead(stack, PartMove(parts[i])) ==
              if parts[i] == "" || parts[i] == "." then Some(stack)
              else if parts[i] == ".." then (if stack == [] then None else Some(stack[..|stack| - 1]))
              else Some(stack + [parts[i]])
    ensures Lead(stack, PartMove(parts[i])).None? ==> Lead(dir, Moves(parts)).None?
  {
    var before, here, rest := parts[..i], [parts[i]], parts[i + 1..];
    assert parts[..i + 1] == before + here && parts == parts[..i + 1] + rest;
    MovesCompose(before, here);
    MovesCompose(parts[..i + 1], rest);
    assert Moves(here) == PartMove(parts[i]) by {
      assert here[1..] == [];
      var p := PartMove(parts[i]);
      assert Then(p, Move(0, [])) == p by { assert p.names[..|p.names|] + [] == p.names; }
    }
    LeadThen(dir, Moves(before), Moves(here));
    LeadThen(dir, Moves(parts[..i + 1]), Moves(rest));
    LeadPart(stack, parts[i]);
  }

  lemma {:induction false} LeadPart(stack: seq<string>, part: string)
    ensures Lead(stack, PartMove(part)) ==
              if part == "" || part == "." then Some(stack)
              else if part == ".." then (if stack == [] then None else Some(stack[..|stack| - 1]))
              else Some(stack + [part])
  {
    assert stack[..|stack|] == stack && stack + [] == stack;
    if stack != [] { assert stack[..|stack| - 1] + [] == stack[..|stack| - 1]; }
  }

  /**
   * The target is undefined exactly for a specifier that is not relative, that leaves the root at some point of its path
   * (coming back does not help), or that names the root itself.
   */
  lemma {:induction false} UndefinedIff(m: string, specifier: string)
    ensures var dir, parts := DirOf(m), Split(specifier, '/');
            Target(m, specifier).None? <==>
              || !Starts(specifier, ".")
              || (exists i :: 0 <= i <= |parts| && Lead(dir, Moves(parts[..i])).None?)
              || Lead(dir, Moves(parts)) == Some([])
  {
    var dir, parts := DirOf(m), Split(specifier, '/');
    assert parts[..|parts|] == parts;
    if i :| 0 <= i <= |parts| && Lead(dir, Moves(parts[..i])).None? {
      assert parts == parts[..i] + parts[i..];
      MovesCompose(parts[..i], parts[i..]);
      LeadThen(dir, Moves(parts[..i]), Moves(parts[i..]));
    }
  }

  /** The extensions that a specifier can name a source module by. */
  predicate Compiled(ext: string) {
    ext == "js" || ext == "jsx" || ext == "mjs" || ext == "cjs"
  }

  /** The last name of a path is a stem with one of these extensions. */
  predicate Emitted(last: string, stem: string, ext: string) {
    Compiled(ext) && last == stem + "." + ext
  }

  lemma EndsInLast(front: string, last: string, ext: string)
    requires front == "" || front[|front| - 1] == '/'
    requires Compiled(ext)
    ensures Ends(front + last, "." + ext) <==> Ends(last, "." + ext)
  {
    var s, suffix := front + last, "." + ext;
    assert '/' !in suffix;
    if |suffix| <= |last| {
      assert s[|s| - |suffix|..] == last[|last| - |suffix|..];
    } else if |suffix| <= |s| {
      assert s[|s| - |suffix|..][|suffix| - |last| - 1] == '/';
    }
  }

  lemma NotBoth(s: string, ext: string)
    requires ext == "jsx" || ext == "mjs" || ext == "cjs"
    requires Ends(s, "." + ext)
    ensures !Ends(s, ".js")
  {
    var suffix := "." + ext;
    assert s[|s| - 4..][1] == s[|s| - 3] == suffix[1];
    assert s[|s| - 3..][0] == s[|s| - 3] && ".js"[0] == '.';
  }

  lemma {:induction false} SourceNameOf(s: string, ext: string)
    requires Compiled(ext) && Ends(s, "." + ext)
    ensures SourceName(s) == s[..|s| - |ext| - 1] + ".ts"
  {
    if ext == "js" {
      assert "." + "js" == ".js";
    } else {
      NotBoth(s, ext);
      assert "." + "jsx" == ".jsx" && "." + "mjs" == ".mjs" && "." + "cjs" == ".cjs";
    }
  }

  lemma {:induction false} SourceNameElse(s: string)
    requires forall ext :: Compiled(ext) ==> !Ends(s, "." + ext)
    ensures SourceName(s) == s
  {
    assert Compiled("js") && Compiled("jsx") && Compiled("mjs") && Compiled("cjs");
    assert "." + "js" == ".js" && "." + "jsx" == ".jsx" && "." + "mjs" == ".mjs" && "." + "cjs" == ".cjs";
  }

  lemma {:induction false} MapsLast(front: string, last: string, stem: string, ext: string)
    requires front == "" || front[|front| - 1] == '/'
    requires Emitted(last, stem, ext)
    ensures SourceName(front + last) == front + (stem + ".ts")
  {
    var s, suffix := front + last, "." + ext;
    hide SourceName, Compiled;
    assert last == stem + suffix && last[|last| - |suffix|..] == suffix;
    EndsInLast(front, last, ext);
    SourceNameOf(s, ext);
    assert s == front + stem + suffix;
    assert s[..|s| - |suffix|] == front + stem;
    assert front + stem + ".ts" == front + (stem + ".ts");
  }

  lemma {:induction false} KeepsOthers(front: string, last: string)
    requires front == "" || front[|front| - 1] == '/'
    requires forall stem, ext :: !Emitted(last, stem, ext)
    ensures SourceName(front + last) == front + last
  {
    hide SourceName, Compiled;
    forall ext | Compiled(ext) ensures !Ends(front + last, "." + ext) {
      EndsInLast(front, last, ext);
      StemOf(last, ext);
    }
    SourceNameElse(front + last);
  }

  lemma {:induction false} StemOf(last: string, ext: string)
    requires Compiled(ext)
    ensures Ends(last, "." + ext) ==> exists stem :: Emitted(last, stem, ext)
  {
    hide Compiled;
    var suffix := "." + ext;
    if Ends(last, suffix) {
      var stem := last[..|last| - |suffix|];
      assert last == stem + suffix && stem + suffix == stem + "." + ext;
      assert Emitted(last, stem, ext);
    }
  }

  /** The text of the directories of a path. */
  function Front(dirs: seq<string>): (front: string)
    ensures front == "" || front[|front| - 1] == '/'
  {
    if dirs == [] then "" else Join(dirs, '/') + "/"
  }

  lemma {:induction false} JoinIsFront(dirs: seq<string>, last: string)
    ensures Join(dirs + [last], '/') == Front(dirs) + last
  {
    assert (dirs + [last])[..|dirs|] == dirs;
  }

  /**
   * The target is spelled with the names of the path that the specifier leads to. An extension js, jsx, mjs or cjs of the last
   * name becomes ts, and any other last name stays.
   */
  lemma {:induction false} TargetNamesItsPath(m: string, specifier: string, dirs: seq<string>, last: string)
    requires Starts(specifier, ".") && Lead(DirOf(m), Moves(Split(specifier, '/'))) == Some(dirs + [last])
    ensures Split(Join(dirs + [last], '/'), '/') == dirs + [last]
    ensures forall stem, ext :: Emitted(last, stem, ext) ==> Target(m, specifier) == Some(Join(dirs + [stem + ".ts"], '/'))
    ensures (forall stem, ext :: !Emitted(last, stem, ext)) ==> Target(m, specifier) == Some(Join(dirs + [last], '/'))
  {
    PathHasNoSlash(m, specifier);
    SplitOfJoin(dirs + [last], '/');
    JoinIsFront(dirs, last);
    forall stem, ext | Emitted(last, stem, ext) ensures SourceName(Front(dirs) + last) == Join(dirs + [stem + ".ts"], '/') {
      MapsLast(Front(dirs), last, stem, ext);
      JoinIsFront(dirs, stem + ".ts");
    }
    if forall stem, ext :: !Emitted(last, stem, ext) { KeepsOthers(Front(dirs), last); }
  }

  lemma {:induction false} PathHasNoSlash(m: string, specifier: string)
    requires Lead(DirOf(m), Moves(Split(specifier, '/'))).Some?
    ensures forall n :: n in Lead(DirOf(m), Moves(Split(specifier, '/'))).value ==> '/' !in n
  {
    var dir, parts := DirOf(m), Split(specifier, '/');
    var move := Moves(parts);
    SplitParts(m, '/');
    SplitParts(specifier, '/');
    MoveNames(parts);
    var path := Lead(dir, move).value;
    forall i | 0 <= i < |path| ensures '/' !in path[i] {
      if i < |dir| - move.ups { assert path[i] == Split(m, '/')[i]; } else { assert path[i] in move.names; }
    }
  }

  /** A sibling: from a module in some directories, `./` and an emitted name is the source of that name in the same directories. */
  lemma {:induction false} SiblingIsItsSource(dirs: seq<string>, name: string, stem: string, ext: string)
    requires (forall i :: 0 <= i < |dirs| ==> '/' !in dirs[i]) && '/' !in name && '/' !in stem && Compiled(ext)
    ensures Target(Join(dirs + [name], '/'), "./" + (stem + "." + ext)) == Some(Join(dirs + [stem + ".ts"], '/'))
  {
    var m, last := Join(dirs + [name], '/'), stem + "." + ext;
    var specifier := "./" + last;
    ExtensionHasNoSlash(ext);
    SplitOfJoin(dirs + [name], '/');
    assert DirOf(m) == dirs;
    DotSlash(last);
    LastIsAName(stem, ext);
    hide Split, Join, Moves, Compiled, Target;
    assert dirs[..|dirs|] == dirs && specifier[..1] == ".";
    TargetNamesItsPath(m, specifier, dirs, last);
    assert Emitted(last, stem, ext);
  }

  lemma ExtensionHasNoSlash(ext: string)
    requires Compiled(ext)
    ensures '/' !in ext
  {
  }

  lemma LastIsAName(stem: string, ext: string)
    requires Compiled(ext)
    ensures var last := stem + "." + ext; last != "" && last != "." && last != ".."
  {
    assert |ext| >= 2;
  }

  lemma {:induction false} DotSlash(last: string)
    requires '/' !in last && last != "" && last != "." && last != ".."
    ensures Moves(Split("./" + last, '/')) == Move(0, [last])
  {
    var parts: seq<string> := [".", last];
    assert "./" + last == "." + ['/'] + last;
    SplitJoin(".", last, '/');
    SplitOne(".", '/');
    SplitOne(last, '/');
    assert Split("./" + last, '/') == parts && parts[1..] == [last] && parts[1..][1..] == [];
    hide Split;
    var a, none := Move(0, [last]), Moves([]);
    assert none == Move(0, []) && PartMove(last) == a && PartMove(".") == none;
    assert a.names[..1] + [] == [last];
    assert Moves([last]) == a;
    assert [] + [last] == [last];
  }

  lemma {:induction false} MoveNames(parts: seq<string>)
    ensures forall n :: n in Moves(parts).names ==> n in parts
  {
    if parts != [] {
      MoveNames(parts[1..]);
      var a, b := PartMove(parts[0]), Moves(parts[1..]);
      forall n | n in Then(a, b).names ensures n in parts {
        if n in b.names { assert n in parts[1..]; } else { assert n in a.names; }
      }
    }
  }

  // ----- the edges of a module

  datatype Edge = Edge(m: string, sourceLayer: string, target: string, targetLayer: string, specifier: string)

  /** What tells two edges of one module apart. */
  function EdgeKey(target: string, specifier: string): string {
    target + "\U{0000}" + specifier
  }

  /** An edge of a module: a specifier of it that resolves into another layer. */
  ghost predicate IsEdge(m: string, specifiers: seq<string>, ids: seq<string>, e: Edge) {
    && e.m == m && e.specifier in specifiers && Target(m, e.specifier) == Some(e.target)
    && IsLayerOf(m, ids, e.sourceLayer) && IsLayerOf(e.target, ids, e.targetLayer) && e.sourceLayer != e.targetLayer
  }

  function Keys(edges: seq<Edge>): set<string> {
    set e | e in edges :: EdgeKey(e.target, e.specifier)
  }

  predicate DistinctKeys(edges: seq<Edge>) {
    forall i, j :: 0 <= i < j < |edges| ==>
      EdgeKey(edges[i].target, edges[i].specifier) != EdgeKey(edges[j].target, edges[j].specifier)
  }

  lemma NoKeys()
    ensures DistinctKeys([])
  {
  }

  lemma {:induction false} KeysWith(edges: seq<Edge>, e: Edge)
    ensures Keys(edges + [e]) == Keys(edges) + {EdgeKey(e.target, e.specifier)}
    ensures DistinctKeys(edges) && EdgeKey(e.target, e.specifier) !in Keys(edges) ==> DistinctKeys(edges + [e])
  {
    var more := edges + [e];
    assert forall x :: x in more <==> x in edges || x == e;
    assert forall i :: 0 <= i < |edges| ==> more[i] == edges[i] && edges[i] in edges;
  }

  /** The edges of a module: real edges with distinct keys, and the key of every specifier that leaves the layer. */
  method DetectLayerEdges(m: string, specifiers: seq<string>, ids: seq<string>) returns (edges: seq<Edge>)
    ensures forall e :: e in edges ==> IsEdge(m, specifiers, ids, e)
    ensures DistinctKeys(edges)
    ensures forall e :: IsEdge(m, specifiers, ids, e) ==> EdgeKey(e.target, e.specifier) in Keys(edges)
  {
    hide IsLayerOf, Target, EdgeKey, DistinctKeys;
    assert DistinctKeys([]) by { NoKeys(); }
    var sourceLayer := LayerOf(m, ids);
    edges := [];
    var seen: set<string> := {};
    for i := 0 to |specifiers|
      invariant forall e :: e in edges ==> IsEdge(m, specifiers, ids, e)
      invariant seen == Keys(edges) && DistinctKeys(edges)
      invariant forall e :: IsEdge(m, specifiers[..i], ids, e) ==> EdgeKey(e.target, e.specifier) in seen
    {
      var specifier := specifiers[i];
      assert forall x :: x in specifiers[..i + 1] ==> x in specifiers[..i] || x == specifier;
      var target := ResolveTarget(m, specifier);
      if target.None? { continue; }
      var targetLayer := LayerOf(target.value, ids);
      forall e | IsEdge(m, specifiers[..i + 1], ids, e) && e.specifier == specifier
        ensures e == Edge(m, sourceLayer, target.value, targetLayer, specifier)
      {
        LayerIsUnique(m, ids, ids, e.sourceLayer, sourceLayer);
        LayerIsUnique(target.value, ids, ids, e.targetLayer, targetLayer);
      }
      if targetLayer == sourceLayer { continue; }
      var key := EdgeKey(target.value, specifier);
      if key in seen { continue; }
      KeysWith(edges, Edge(m, sourceLayer, target.value, targetLayer, specifier));
      seen := seen + {key};
      edges := edges + [Edge(m, sourceLayer, target.value, targetLayer, specifier)];
    }
    assert specifiers[..|specifiers|] == specifiers;
  }

  /** A target without a NUL character and its specifier are read back from their key. */
  lemma {:induction false} KeyIff(target: string, specifier: string, other: string, another: string)
    requires '\U{0000}' !in target && '\U{0000}' !in other
    ensures EdgeKey(target, specifier) == EdgeKey(other, another) <==> target == other && specifier == another
  {
    var p, q := EdgeKey(target, specifier), EdgeKey(other, another);
    if |target| < |other| { ShorterTarget(target, specifier, other, another); }
    if |other| < |target| { ShorterTarget(other, another, target, specifier); }
    if p == q {
      assert p[..|target|] == target && q[..|other|] == other;
      assert p[|target| + 1..] == specifier && q[|other| + 1..] == another;
    }
  }

  lemma ShorterTarget(target: string, specifier: string, other: string, another: string)
    requires |target| < |other| && '\U{0000}' !in other
    ensures EdgeKey(target, specifier) != EdgeKey(other, another)
  {
    assert EdgeKey(target, specifier)[|target|] == '\U{0000}' && EdgeKey(other, another)[|target|] == other[|target|];
  }

  /** Without NUL characters in targets the edges are exactly those of the specifiers that leave the layer, each of them once. */
  lemma {:induction false} EdgesAreExact(m: string, specifiers: seq<string>, ids: seq<string>, edges: seq<Edge>)
    requires (forall e :: e in edges ==> IsEdge(m, specifiers, ids, e)) && DistinctKeys(edges)
    requires forall e :: IsEdge(m, specifiers, ids, e) ==> EdgeKey(e.target, e.specifier) in Keys(edges) && '\U{0000}' !in e.target
    ensures forall e :: e in edges <==> IsEdge(m, specifiers, ids, e)
    ensures forall i, j :: 0 <= i < j < |edges| ==> edges[i].specifier != edges[j].specifier
  {
    forall e | IsEdge(m, specifiers, ids, e) ensures e in edges {
      var x :| x in edges && EdgeKey(x.target, x.specifier) == EdgeKey(e.target, e.specifier);
      KeyIff(x.target, x.specifier, e.target, e.specifier);
      LayerIsUnique(m, ids, ids, x.sourceLayer, e.sourceLayer);
      LayerIsUnique(e.target, ids, ids, x.targetLayer, e.targetLayer);
    }
    forall i, j | 0 <= i < j < |edges| ensures edges[i].specifier != edges[j].specifier {
      assert edges[i] in edges && edges[j] in edges;
    }
  }

  // ----- the verdict

  datatype Allowance = Allowance(layer: string, allow: seq<string>)

  datatype Diagnostic = ForbiddenImport(edge: Edge) | StaleAllowance(layer: string, target: string)

  /** The row that governs a layer: the last one of its name. */
  function RowOf(allowances: seq<Allowance>, layer: string): Option<Allowance> {
    if allowances == [] then None
    else if allowances[|allowances| - 1].layer == layer then Some(allowances[|allowances| - 1])
    else RowOf(allowances[..|allowances| - 1], layer)
  }

  predicate Forbidden(allowances: seq<Allowance>, e: Edge) {
    RowOf(allowances, e.sourceLayer).Some? && e.targetLayer !in RowOf(allowances, e.sourceLayer).value.allow
  }

  predicate Live(edges: seq<Edge>, layer: string, target: string) {
    exists i :: 0 <= i < |edges| && edges[i].sourceLayer == layer && edges[i].targetLayer == target
  }

  function ForbiddenImports(allowances: seq<Allowance>, edges: seq<Edge>): seq<Diagnostic> {
    if edges == [] then []
    else
      var last := edges[|edges| - 1];
      ForbiddenImports(allowances, edges[..|edges| - 1]) + if Forbidden(allowances, last) then [ForbiddenImport(last)] else []
  }

  function StaleTargets(edges: seq<Edge>, layer: string, allow: seq<string>): seq<Diagnostic> {
    if allow == [] then []
    else
      var last := allow[|allow| - 1];
      StaleTargets(edges, layer, allow[..|allow| - 1]) + if Live(edges, layer, last) then [] else [StaleAllowance(layer, last)]
  }

  function StaleAllowances(edges: seq<Edge>, allowances: seq<Allowance>): seq<Diagnostic> {
    if allowances == [] then []
    else
      var last := allowances[|allowances| - 1];
      StaleAllowances(edges, allowances[..|allowances| - 1]) + StaleTargets(edges, last.layer, last.allow)
  }

  /** The rows by layer; a later row of a layer replaces an earlier one. */
  method RowsByLayer(allowances: seq<Allowance>) returns (byLayer: map<string, seq<string>>)
    ensures forall l :: l in byLayer <==> RowOf(allowances, l).Some?
    ensures forall l :: l in byLayer ==> byLayer[l] == RowOf(allowances, l).value.allow
  {
    byLayer := map[];
    for i := 0 to |allowances|
      invariant forall l :: l in byLayer <==> RowOf(allowances[..i], l).Some?
      invariant forall l :: l in byLayer ==> byLayer[l] == RowOf(allowances[..i], l).value.allow
    {
      assert allowances[..i + 1][..i] == allowances[..i];
      byLayer := byLayer[allowances[i].layer := allowances[i].allow];
    }
    assert allowances[..|allowances|] == allowances;
  }

  method CheckEdges(edges: seq<Edge>, allowances: seq<Allowance>) returns (diagnostics: seq<Diagnostic>)
    ensures diagnostics == ForbiddenImports(allowances, edges)
  {
    var byLayer := RowsByLayer(allowances);
    diagnostics := [];
    for i := 0 to |edges|
      invariant diagnostics == ForbiddenImports(allowances, edges[..i])
    {
      assert edges[..i + 1][..i] == edges[..i];
      var e := edges[i];
      if e.sourceLayer !in byLayer { continue; }
      if e.targetLayer in byLayer[e.sourceLayer] { continue; }
      diagnostics := diagnostics + [ForbiddenImport(e)];
    }
    assert edges[..|edges|] == edges;
  }

  method CheckTargets(edges: seq<Edge>, layer: string, allow: seq<string>) returns (diagnostics: seq<Diagnostic>)
    ensures diagnostics == StaleTargets(edges, layer, allow)
  {
    diagnostics := [];
    for j := 0 to |allow|
      invariant diagnostics == StaleTargets(edges, layer, allow[..j])
    {
      assert allow[..j + 1][..j] == allow[..j];
      if !Live(edges, layer, allow[j]) { diagnostics := diagnostics + [StaleAllowance(layer, allow[j])]; }
    }
    assert allow[..|allow|] == allow;
  }

  method RunLayerBoundaryCensus(edges: seq<Edge>, allowances: seq<Allowance>)
    returns (ok: bool, edgeCount: nat, diagnostics: seq<Diagnostic>)
    ensures diagnostics == ForbiddenImports(allowances, edges) + StaleAllowances(edges, allowances)
    ensures ok <==> diagnostics == []
    ensures edgeCount == |edges|
  {
    var forbidden := CheckEdges(edges, allowances);
    var stale: seq<Diagnostic> := [];
    for i := 0 to |allowances|
      invariant stale == StaleAllowances(edges, allowances[..i])
    {
      assert allowances[..i + 1][..i] == allowances[..i];
      var more := CheckTargets(edges, allowances[i].layer, allowances[i].allow);
      stale := stale + more;
    }
    assert allowances[..|allowances|] == allowances;
    diagnostics := forbidden + stale;
    return diagnostics == [], |edges|, diagnostics;
  }

  lemma {:induction false} NoneForbidden(allowances: seq<Allowance>, edges: seq<Edge>)
    ensures ForbiddenImports(allowances, edges) == [] <==> forall i :: 0 <= i < |edges| ==> !Forbidden(allowances, edges[i])
  {
    if edges != [] {
      var init := edges[..|edges| - 1];
      NoneForbidden(allowances, init);
      assert forall i :: 0 <= i < |init| ==> init[i] == edges[i];
    }
  }

  lemma {:induction false} NoneStaleIn(edges: seq<Edge>, layer: string, allow: seq<string>)
    ensures StaleTargets(edges, layer, allow) == [] <==> forall t :: t in allow ==> Live(edges, layer, t)
  {
    if allow != [] {
      var init, last := allow[..|allow| - 1], allow[|allow| - 1];
      NoneStaleIn(edges, layer, init);
      assert forall t :: t in allow <==> t in init || t == last;
    }
  }

  lemma {:induction false} NoneStale(edges: seq<Edge>, allowances: seq<Allowance>)
    ensures StaleAllowances(edges, allowances) == [] <==>
              forall a, t :: a in allowances && t in a.allow ==> Live(edges, a.layer, t)
  {
    if allowances != [] {
      var init, last := allowances[..|allowances| - 1], allowances[|allowances| - 1];
      NoneStale(edges, init);
      NoneStaleIn(edges, last.layer, last.allow);
      assert forall a :: a in allowances <==> a in init || a == last;
    }
  }

  lemma {:induction false} RowIsARow(allowances: seq<Allowance>, layer: string)
    ensures match RowOf(allowances, layer)
            case None => forall a :: a in allowances ==> a.layer != layer
            case Some(row) => row in allowances && row.layer == layer
  {
    if allowances != [] {
      var init, last := allowances[..|allowances| - 1], allowances[|allowances| - 1];
      RowIsARow(init, layer);
      assert forall a :: a in allowances <==> a in init || a == last;
    }
  }

  /**
   * The two-way census: it is ok if and only if every row allows only targets that an edge of its layer reaches, and the
   * last row of a layer allows every target that an edge of the layer reaches.
   */
  lemma {:induction false} CensusIsExact(edges: seq<Edge>, allowances: seq<Allowance>)
    ensures ForbiddenImports(allowances, edges) + StaleAllowances(edges, allowances) == [] <==>
              && (forall a, t :: a in allowances && t in a.allow ==> Live(edges, a.layer, t))
              && (forall a, t :: RowOf(allowances, a).Some? && Live(edges, a, t) ==> t in RowOf(allowances, a).value.allow)
  {
    NoneForbidden(allowances, edges);
    NoneStale(edges, allowances);
    if forall i :: 0 <= i < |edges| ==> !Forbidden(allowances, edges[i]) {
      forall a, t | RowOf(allowances, a).Some? && Live(edges, a, t) ensures t in RowOf(allowances, a).value.allow {
        var i :| 0 <= i < |edges| && edges[i].sourceLayer == a && edges[i].targetLayer == t;
        assert !Forbidden(allowances, edges[i]);
      }
    }
    if forall a, t :: RowOf(allowances, a).Some? && Live(edges, a, t) ==> t in RowOf(allowances, a).value.allow {
      forall i | 0 <= i < |edges| ensures !Forbidden(allowances, edges[i]) {
        assert Live(edges, edges[i].sourceLayer, edges[i].targetLayer);
      }
    }
  }

  /** With one row for each layer, the census is ok if and only if each row allows exactly the targets that its edges reach. */
  lemma {:induction false} DistinctRowsAreExact(edges: seq<Edge>, allowances: seq<Allowance>)
    requires forall i, j :: 0 <= i < j < |allowances| ==> allowances[i].layer != allowances[j].layer
    ensures ForbiddenImports(allowances, edges) + StaleAllowances(edges, allowances) == [] <==>
              forall a, t :: a in allowances ==> (t in a.allow <==> Live(edges, a.layer, t))
  {
    CensusIsExact(edges, allowances);
    forall a | a in allowances ensures RowOf(allowances, a.layer) == Some(a) {
      RowIsARow(allowances, a.layer);
      var row := RowOf(allowances, a.layer).value;
      var i :| 0 <= i < |allowances| && allowances[i] == a;
      var j :| 0 <= j < |allowances| && allowances[j] == row;
    }
    forall l | RowOf(allowances, l).Some? ensures RowOf(allowances, l).value in allowances && RowOf(allowances, l).value.layer == l {
      RowIsARow(allowances, l);
    }
  }
}
