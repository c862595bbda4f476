/**
 * `pickFields`: a partial copy of an object graph by dot paths. The copy builds new objects along each path
 * and shares the picked subtrees with the source, so a later path can walk into the source itself.
 */
module PickFields {
  import opened Texts
  import opened Wrappers

  datatype Primitive = NullValue | UndefinedValue | BoolValue(b: bool) | NumberValue(n: real) | TextValue(s: string)

  datatype Value = Prim(p: Primitive) | Ref(o: Obj)

  class Obj {
    var members: map<string, Value>

    constructor ()
      ensures members == map[]
    {
      members := map[];
    }
  }

  type Path = seq<string>

  /** The members of some objects at one moment. */
  type Heap = map<Obj, map<string, Value>>

  function Snapshot(objects: set<Obj>): Heap
    reads objects
  {
    map o | o in objects :: o.members
  }

  /** The objects have the members that they had. */
  ghost predicate Kept(heap: Heap)
    reads heap.Keys
  {
    forall o :: o in heap ==> o.members == heap[o]
  }

  /** No member leads out of the heap. */
  ghost predicate Closed(heap: Heap) {
    forall o, k :: o in heap && k in heap[o] && heap[o][k].Ref? ==> heap[o][k].o in heap
  }

  function Init(p: Path): Path
    requires p != []
  {
    p[..|p| - 1]
  }

  function Last(p: Path): string
    requires p != []
  {
    p[|p| - 1]
  }

  function Child(p: Path, k: string): (c: Path)
    ensures c != [] && Init(c) == p && Last(c) == k
  {
    p + [k]
  }

  /** The value at the end of a path of own members. */
  function Resolve(heap: Heap, root: Obj, p: Path): Option<Value>
    decreases |p|
  {
    if p == [] then Some(Ref(root))
    else
      var parent := Resolve(heap, root, Init(p));
      if parent.Some? && parent.value.Ref? && parent.value.o in heap && Last(p) in heap[parent.value.o]
      then Some(heap[parent.value.o][Last(p)]) else None
  }

  predicate ProtoKey(segment: string) {
    segment == "__proto__" || segment == "prototype" || segment == "constructor"
  }

  predicate Refused(p: Path) {
    exists i :: 0 <= i < |p| && ProtoKey(p[i])
  }

  function Segments(field: string): (p: Path)
    ensures p != []
  {
    Split(field, '.')
  }

  /** The paths of the fields that are not refused and exist in the source. */
  function Picks(heap: Heap, root: Obj, fields: seq<string>): set<Path> {
    if fields == [] then {}
    else
      var p := Segments(fields[|fields| - 1]);
      Picks(heap, root, fields[..|fields| - 1]) + if !Refused(p) && Resolve(heap, root, p).Some? then {p} else {}
  }

  // ----- the state of a partial copy

  /** The path is picked, or it lies below a picked path. */
  predicate Whole(picked: set<Path>, p: Path) {
    exists h :: h in picked && h <= p
  }

  /** The path leads to a picked path. */
  predicate Leads(picked: set<Path>, p: Path) {
    p != [] && exists h :: h in picked && p <= h
  }

  /**
   * The copy so far. `node` gives the new object of each path that is built, and `made` the members of that object.
   * `built` holds the paths that the copy has made: each is a member of the new object of its parent path, or lies
   * in a shared subtree.
   */
  datatype Copy = Copy(node: map<Path, Obj>, made: map<Path, map<string, Value>>, built: set<Path>, picked: set<Path>)

  ghost predicate NodeMatches(src: Heap, obj: Obj, c: Copy, p: Path)
    requires p in c.made
  {
    && Resolve(src, obj, p).Some? && Resolve(src, obj, p).value.Ref? && Resolve(src, obj, p).value.o in src
    && (forall k :: k in c.made[p] <==> Child(p, k) in c.built)
    && (forall k :: k in c.made[p] ==> MemberMatches(src, obj, c, Child(p, k), c.made[p][k]))
  }

  /** A built path holds the value of the source, or a new object for an object of the source. */
  ghost predicate MemberMatches(src: Heap, obj: Obj, c: Copy, q: Path, v: Value) {
    && Resolve(src, obj, q).Some?
    && if Whole(c.picked, q) then v == Resolve(src, obj, q).value else q in c.node && v == Ref(c.node[q])
  }

  /** Each path has a new object of its own. */
  ghost predicate Apart(src: Heap, node: map<Path, Obj>) {
    && (forall p, q :: p in node && q in node && node[p] == node[q] ==> p == q)
    && (forall p :: p in node ==> node[p] !in src)
  }

  ghost predicate Nodes(src: Heap, result: Obj, c: Copy) {
    && c.made.Keys == c.node.Keys
    && [] in c.node && c.node[[]] == result
    && (forall q :: q in c.node <==> (q == [] || q in c.built) && !Whole(c.picked, q))
    && Apart(src, c.node)
  }

  ghost predicate Paths(c: Copy) {
    && c.picked <= c.built && [] !in c.built
    && forall p :: p in c.built && Init(p) != [] ==> Init(p) in c.built
  }

  ghost predicate Inv(src: Heap, obj: Obj, result: Obj, c: Copy) {
    && Nodes(src, result, c) && Paths(c)
    && forall p :: p in c.node ==> NodeMatches(src, obj, c, p)
  }

  /** The members of the new objects, by path. */
  ghost function Made(node: map<Path, Obj>): map<Path, map<string, Value>>
    reads node.Values
  {
    map p | p in node :: node[p].members
  }

  // ----- the steps of the copy

  /** A new object at a path whose parent is built. */
  ghost function WithChild(c: Copy, q: Path, child: Obj): Copy
    requires q != [] && Init(q) in c.made
  {
    Copy(c.node[q := child], c.made[Init(q) := c.made[Init(q)][Last(q) := Ref(child)]][q := map[]], c.built + {q}, c.picked)
  }

  lemma PrefixOfChild(h: Path, q: Path)
    requires q != []
    ensures h <= q <==> h == q || h <= Init(q)
  {
  }

  lemma {:induction false} NotWholeBelow(c: Copy, q: Path)
    requires q != [] && !Whole(c.picked, Init(q)) && q !in c.picked
    ensures !Whole(c.picked, q)
  {
    forall h | h in c.picked ensures !(h <= q) {
      PrefixOfChild(h, q);
    }
  }

  lemma {:induction false} ChildMatches(src: Heap, obj: Obj, c: Copy, q: Path, child: Obj, p: Path)
    requires c.made.Keys == c.node.Keys && q != [] && Init(q) in c.made && q !in c.built && q !in c.node && c.picked <= c.built
    requires Paths(c) && !Whole(c.picked, q) && Resolve(src, obj, q).Some?
    requires p in c.node && NodeMatches(src, obj, c, p)
    ensures NodeMatches(src, obj, WithChild(c, q, child), p)
  {
    var d := WithChild(c, q, child);
    forall k ensures Child(p, k) == q <==> p == Init(q) && k == Last(q) {
    }
    forall k | k in d.made[p] ensures MemberMatches(src, obj, d, Child(p, k), d.made[p][k]) {
      if Child(p, k) != q { assert MemberMatches(src, obj, c, Child(p, k), c.made[p][k]); }
    }
  }

  lemma {:induction false} ChildIsEmpty(src: Heap, obj: Obj, c: Copy, q: Path, child: Obj)
    requires c.made.Keys == c.node.Keys && q != [] && Init(q) in c.made && q !in c.built && Paths(c)
    requires Resolve(src, obj, q).Some? && Resolve(src, obj, q).value.Ref? && Resolve(src, obj, q).value.o in src
    ensures NodeMatches(src, obj, WithChild(c, q, child), q)
  {
    var d := WithChild(c, q, child);
    forall k ensures Child(q, k) !in d.built {
      assert Init(Child(q, k)) == q && |Child(q, k)| == |q| + 1;
    }
  }

  lemma {:induction false} ChildNodes(src: Heap, result: Obj, c: Copy, q: Path, child: Obj)
    requires Nodes(src, result, c) && Paths(c) && q != [] && Init(q) in c.node && !Whole(c.picked, q)
    requires child !in src && forall p :: p in c.node ==> c.node[p] != child
    ensures var d := WithChild(c, q, child);
            Nodes(src, result, d) && Paths(d) && d.node.Keys == c.node.Keys + {q}
  {
  }

  lemma {:induction false} ChildKeepsInv(src: Heap, obj: Obj, result: Obj, c: Copy, q: Path, child: Obj)
    requires Inv(src, obj, result, c) && q != [] && Init(q) in c.node && q !in c.built
    requires child !in src && forall p :: p in c.node ==> c.node[p] != child
    requires Resolve(src, obj, q).Some? && Resolve(src, obj, q).value.Ref? && Resolve(src, obj, q).value.o in src
    ensures Inv(src, obj, result, WithChild(c, q, child))
  {
    var d := WithChild(c, q, child);
    NotWholeBelow(c, q);
    ChildNodes(src, result, c, q, child);
    assert NodeMatches(src, obj, d, q) by { ChildIsEmpty(src, obj, c, q, child); }
    hide NodeMatches, WithChild, Whole, Resolve;
    forall p | p in c.node && p != q ensures NodeMatches(src, obj, d, p) { ChildMatches(src, obj, c, q, child, p); }
    forall p | p in d.node ensures NodeMatches(src, obj, d, p) {
      assert p == q || p in c.node;
    }
  }

  /** A picked path whose parent is a new object: the member is set, and the new objects below it fall away. */
  ghost function WithPick(c: Copy, f: Path, v: Value): Copy
    requires f != [] && c.made.Keys == c.node.Keys
  {
    Copy(map p | p in c.node && !(f <= p) :: c.node[p],
         map p | p in c.made && !(f <= p) :: if p == Init(f) then c.made[p][Last(f) := v] else c.made[p],
         c.built + {f}, c.picked + {f})
  }

  lemma {:induction false} WholeWith(picked: set<Path>, f: Path, p: Path)
    ensures Whole(picked + {f}, p) <==> Whole(picked, p) || f <= p
  {
    if Whole(picked, p) {
      var h :| h in picked && h <= p;
      assert h in picked + {f};
    }
    if f <= p { assert f in picked + {f}; }
  }

  lemma {:induction false} PickMatches(src: Heap, obj: Obj, c: Copy, f: Path, v: Value, p: Path)
    requires c.made.Keys == c.node.Keys && f != [] && Resolve(src, obj, f) == Some(v)
    requires p in c.node && !(f <= p) && NodeMatches(src, obj, c, p)
    ensures NodeMatches(src, obj, WithPick(c, f, v), p)
  {
    var d := WithPick(c, f, v);
    forall k ensures Child(p, k) == f <==> p == Init(f) && k == Last(f) {
    }
    forall k | k in d.made[p] ensures MemberMatches(src, obj, d, Child(p, k), d.made[p][k]) {
      PrefixOfChild(f, Child(p, k));
      WholeWith(c.picked, f, Child(p, k));
      if Child(p, k) != f { assert MemberMatches(src, obj, c, Child(p, k), c.made[p][k]); }
    }
  }

  lemma {:induction false} PickKeepsInv(src: Heap, obj: Obj, result: Obj, c: Copy, f: Path, v: Value)
    requires Inv(src, obj, result, c) && f != [] && Init(f) in c.node && Resolve(src, obj, f) == Some(v)
    ensures Inv(src, obj, result, WithPick(c, f, v))
  {
    var d := WithPick(c, f, v);
    forall p ensures Whole(d.picked, p) <==> Whole(c.picked, p) || f <= p { WholeWith(c.picked, f, p); }
    assert Nodes(src, result, d) && Paths(d);
    forall p | p in d.node ensures NodeMatches(src, obj, d, p) {
      PickMatches(src, obj, c, f, v, p);
    }
  }

  /** A path that is built already, or whose parent lies in a shared subtree. */
  lemma {:induction false} BuiltInside(src: Heap, obj: Obj, result: Obj, c: Copy, q: Path)
    requires Inv(src, obj, result, c) && q != [] && (Init(q) == [] || Init(q) in c.built)
    requires q in c.built || (Init(q) !in c.node && Whole(c.picked, q))
    ensures Inv(src, obj, result, c.(built := c.built + {q}))
  {
    var d := c.(built := c.built + {q});
    if q in c.built {
      assert d == c by { assert d.built == c.built; }
    } else {
      forall p | p in d.node ensures NodeMatches(src, obj, d, p) {
        assert NodeMatches(src, obj, c, p);
        forall k | k in d.made[p] ensures MemberMatches(src, obj, d, Child(p, k), d.made[p][k]) {
          assert MemberMatches(src, obj, c, Child(p, k), c.made[p][k]);
        }
      }
    }
  }

  /** A picked path inside a shared subtree. */
  lemma {:induction false} PickInside(src: Heap, obj: Obj, result: Obj, c: Copy, f: Path)
    requires Inv(src, obj, result, c) && f in c.built && Whole(c.picked, f)
    ensures Inv(src, obj, result, c.(picked := c.picked + {f}))
  {
    var d := c.(picked := c.picked + {f});
    forall p ensures Whole(d.picked, p) <==> Whole(c.picked, p) {
      WholeWith(c.picked, f, p);
      if f <= p {
        var h :| h in c.picked && h <= f;
        assert h <= p;
      }
    }
    forall p | p in d.node ensures NodeMatches(src, obj, d, p) {
      assert NodeMatches(src, obj, c, p);
      forall k | k in d.made[p] ensures MemberMatches(src, obj, d, Child(p, k), d.made[p][k]) {
        assert MemberMatches(src, obj, c, Child(p, k), c.made[p][k]);
      }
    }
  }

  // ----- what the copy holds

  /** The heap holds the source as it was and the new objects. */
  ghost predicate Holds(heap: Heap, src: Heap, c: Copy)
    requires c.made.Keys == c.node.Keys
  {
    && (forall o :: o in src ==> o in heap && heap[o] == src[o])
    && (forall p :: p in c.node ==> c.node[p] in heap && heap[c.node[p]] == c.made[p])
  }

  /** A path of the copy ends in a shared value of the source, in a new object, or nowhere. */
  lemma {:induction false} CopyAt(src: Heap, obj: Obj, result: Obj, c: Copy, heap: Heap, p: Path)
    requires Inv(src, obj, result, c) && Closed(src) && obj in src && Holds(heap, src, c)
    ensures Whole(c.picked, p) ==> Resolve(heap, result, p) == Resolve(src, obj, p)
    ensures !Whole(c.picked, p) && (p == [] || p in c.built) ==> Resolve(heap, result, p) == Some(Ref(c.node[p]))
    ensures !Whole(c.picked, p) && p != [] && p !in c.built ==> Resolve(heap, result, p) == None
    decreases |p|
  {
    if p != [] {
      var q, k := Init(p), Last(p);
      assert p == Child(q, k);
      CopyAt(src, obj, result, c, heap, q);
      if Whole(c.picked, q) {
        var h :| h in c.picked && h <= q;
        assert h <= p;
        ResolvedInside(src, obj, q);
      } else if q in c.node {
        assert NodeMatches(src, obj, c, q);
        if Whole(c.picked, p) { PickedBelow(c, p); }
        if k in c.made[q] { assert MemberMatches(src, obj, c, p, c.made[q][k]); }
      } else if Whole(c.picked, p) {
        PickedBelow(c, p);
      }
    }
  }

  lemma {:induction false} PickedBelow(c: Copy, p: Path)
    requires p != [] && Whole(c.picked, p) && !Whole(c.picked, Init(p))
    ensures p in c.picked
  {
    var h :| h in c.picked && h <= p;
    PrefixOfChild(h, p);
  }

  /** In a closed heap a path never leaves the heap. */
  lemma ResolvedInside(src: Heap, obj: Obj, p: Path)
    requires Closed(src) && obj in src
    ensures Resolve(src, obj, p).Some? && Resolve(src, obj, p).value.Ref? ==> Resolve(src, obj, p).value.o in src
    decreases |p|
  {
  }

  /**
   * A heap holds a pick of an object by some paths: a path exists in the result exactly when it exists in the source
   * and leads to a picked path or lies at or below one. At or below a picked path the two are the same value; above,
   * an object of the result stands for an object of the source.
   */
  ghost predicate IsPick(src: Heap, obj: Obj, heap: Heap, result: Obj, picks: set<Path>) {
    forall p :: p != [] ==>
      && (Resolve(heap, result, p).Some? <==> Resolve(src, obj, p).Some? && (Whole(picks, p) || Leads(picks, p)))
      && (Resolve(heap, result, p).Some? ==>
            if Whole(picks, p) then Resolve(heap, result, p) == Resolve(src, obj, p)
            else Resolve(heap, result, p).value.Ref? && Resolve(src, obj, p).value.Ref?)
  }

  lemma {:induction false} PrefixResolves(src: Heap, obj: Obj, p: Path, h: Path)
    requires p <= h && Resolve(src, obj, h).Some?
    ensures Resolve(src, obj, p).Some? && (p != h ==> Resolve(src, obj, p).value.Ref?)
    decreases |h|
  {
    if p != h {
      PrefixOfChild(p, h);
      PrefixResolves(src, obj, p, Init(h));
    }
  }

  lemma {:induction false} CopyIsPick(src: Heap, obj: Obj, result: Obj, c: Copy, heap: Heap)
    requires Inv(src, obj, result, c) && Closed(src) && obj in src && Holds(heap, src, c)
    requires forall p :: p in c.built <==> Leads(c.picked, p)
    requires forall h :: h in c.picked ==> Resolve(src, obj, h).Some?
    ensures IsPick(src, obj, heap, result, c.picked)
  {
    forall p | p != []
      ensures Resolve(heap, result, p).Some? <==> Resolve(src, obj, p).Some? && (Whole(c.picked, p) || Leads(c.picked, p))
      ensures Resolve(heap, result, p).Some? ==>
                if Whole(c.picked, p) then Resolve(heap, result, p) == Resolve(src, obj, p)
                else Resolve(heap, result, p).value.Ref? && Resolve(src, obj, p).value.Ref?
    {
      CopyAt(src, obj, result, c, heap, p);
      if Leads(c.picked, p) {
        var h :| h in c.picked && p <= h;
        PrefixResolves(src, obj, p, h);
        if p == h { assert Whole(c.picked, p); }
      }
    }
  }

  // ----- the method

  /** Walks the segments through own members: the loop that reads the source. */
  method Lookup(obj: Obj, segments: Path, ghost src: Heap) returns (found: Option<Value>)
    requires Kept(src) && Closed(src) && obj in src
    ensures found == Resolve(src, obj, segments)
  {
    var source := Ref(obj);
    for i := 0 to |segments|
      invariant Resolve(src, obj, segments[..i]) == Some(source)
    {
      ghost var here := segments[..i + 1];
      assert Init(here) == segments[..i] && Last(here) == segments[i];
      ResolvedInside(src, obj, segments[..i]);
      if source.Ref? && segments[i] in source.o.members {
        source := source.o.members[segments[i]];
      } else {
        DeadEnd(src, obj, here, segments);
        return None;
      }
    }
    assert segments[..|segments|] == segments;
    return Some(source);
  }

  lemma {:induction false} DeadEnd(src: Heap, obj: Obj, p: Path, h: Path)
    requires p <= h && Resolve(src, obj, p).None?
    ensures Resolve(src, obj, h).None?
  {
    if Resolve(src, obj, h).Some? { PrefixResolves(src, obj, p, h); }
  }

  /** Where the walk of the copy stands: at a new object, or at an object of the source inside a shared subtree. */
  ghost predicate StandsAt(src: Heap, obj: Obj, c: Copy, q: Path, target: Obj) {
    && (q == [] || q in c.built)
    && if Whole(c.picked, q) then Resolve(src, obj, q) == Some(Ref(target)) else q in c.node && target == c.node[q]
  }

  /** Below a new object: a member is there exactly when its path is built, and it leads where the path leads. */
  lemma {:induction false} StepFromNode(src: Heap, obj: Obj, result: Obj, c: Copy, q: Path, k: string)
    requires Inv(src, obj, result, c) && q in c.node
    requires Resolve(src, obj, Child(q, k)).Some? && Resolve(src, obj, Child(q, k)).value.Ref?
    ensures k in c.made[q] <==> Child(q, k) in c.built
    ensures k in c.made[q] ==> c.made[q][k].Ref? && StandsAt(src, obj, c, Child(q, k), c.made[q][k].o)
  {
    assert NodeMatches(src, obj, c, q);
    if k in c.made[q] { assert MemberMatches(src, obj, c, Child(q, k), c.made[q][k]); }
  }

  /** Inside a shared subtree the walk follows the source. */
  lemma {:induction false} StepFromShared(src: Heap, obj: Obj, result: Obj, c: Copy, q: Path, target: Obj, k: string)
    requires Inv(src, obj, result, c) && Closed(src) && obj in src && StandsAt(src, obj, c, q, target) && Whole(c.picked, q)
    requires Resolve(src, obj, Child(q, k)).Some? && Resolve(src, obj, Child(q, k)).value.Ref?
    ensures target in src && k in src[target] && src[target][k] == Resolve(src, obj, Child(q, k)).value
    ensures StandsAt(src, obj, c.(built := c.built + {Child(q, k)}), Child(q, k), src[target][k].o)
  {
    ResolvedInside(src, obj, q);
    WholeBelow(c.picked, q, Child(q, k));
  }

  /** Sets a member: of a new object to any value, or of a shared object to the value that it has. */
  method SetMember(ghost src: Heap, ghost node: map<Path, Obj>, ghost q: Path, target: Obj, segment: string, value: Value)
    requires Kept(src) && Apart(src, node)
    requires if q in node then target == node[q] else target in src && segment in src[target] && src[target][segment] == value
    modifies target
    ensures Kept(src) && target.members == old(target.members)[segment := value]
    ensures Made(node) == if q in node then old(Made(node))[q := old(Made(node))[q][segment := value]] else old(Made(node))
  {
    target.members := target.members[segment := value];
    if q !in node { assert target.members == src[target]; }
  }

  lemma InvGives(src: Heap, obj: Obj, result: Obj, c: Copy, q: Path)
    requires Inv(src, obj, result, c)
    ensures Apart(src, c.node) && c.picked <= c.built
    ensures q in c.node <==> (q == [] || q in c.built) && !Whole(c.picked, q)
  {
  }

  /** Sets a new object at a path that the copy lacks. */
  method AddChild(ghost src: Heap, ghost obj: Obj, ghost result: Obj, ghost c: Copy, ghost q: Path, target: Obj, segment: string)
    returns (ghost d: Copy)
    requires Kept(src) && Inv(src, obj, result, c) && c.made == Made(c.node)
    requires q in c.node && target == c.node[q] && Child(q, segment) !in c.built
    requires var p := Child(q, segment);
             Resolve(src, obj, p).Some? && Resolve(src, obj, p).value.Ref? && Resolve(src, obj, p).value.o in src
    modifies target
    ensures Kept(src) && Inv(src, obj, result, d) && d.made == Made(d.node)
    ensures segment in target.members && target.members[segment].Ref?
    ensures StandsAt(src, obj, d, Child(q, segment), target.members[segment].o)
    ensures d.picked == c.picked && d.built == c.built + {Child(q, segment)}
    ensures forall p :: p in d.node ==> (p in c.node && d.node[p] == c.node[p]) || fresh(d.node[p])
  {
    hide Inv, StandsAt, Resolve, Whole;
    ghost var p := Child(q, segment);
    var child := new Obj();
    d := WithChild(c, p, child);
    ChildStands(src, obj, result, c, p, child);
    MadeWith(c.node, p, child);
    SetMember(src, d.node, q, target, segment, Ref(child));
    TwoUpdates(c.made, q, p, segment, Ref(child));
  }

  lemma MadeWith(node: map<Path, Obj>, p: Path, child: Obj)
    requires child.members == map[]
    ensures Made(node[p := child]) == Made(node)[p := map[]]
  {
  }

  lemma TwoUpdates(made: map<Path, map<string, Value>>, q: Path, p: Path, k: string, v: Value)
    requires q in made && q != p
    ensures made[p := map[]][q := made[p := map[]][q][k := v]] == made[q := made[q][k := v]][p := map[]]
  {
  }

  lemma {:induction false} ChildStands(src: Heap, obj: Obj, result: Obj, c: Copy, p: Path, child: Obj)
    requires Inv(src, obj, result, c) && p != [] && Init(p) in c.node && p !in c.built
    requires child !in src && forall r :: r in c.node ==> c.node[r] != child
    requires Resolve(src, obj, p).Some? && Resolve(src, obj, p).value.Ref? && Resolve(src, obj, p).value.o in src
    ensures var d := WithChild(c, p, child); Inv(src, obj, result, d) && Apart(src, d.node) && StandsAt(src, obj, d, p, child)
  {
    ChildKeepsInv(src, obj, result, c, p, child);
    NotWholeBelow(c, p);
  }

  /** One step down, with the object that the copy lacks. */
  method Descend(ghost src: Heap, ghost obj: Obj, ghost result: Obj, ghost c: Copy, ghost q: Path, target: Obj, segment: string)
    returns (next: Obj, ghost d: Copy)
    requires Kept(src) && Closed(src) && obj in src && Inv(src, obj, result, c) && c.made == Made(c.node)
    requires StandsAt(src, obj, c, q, target)
    requires var p := Child(q, segment); Resolve(src, obj, p).Some? && Resolve(src, obj, p).value.Ref?
    modifies c.node.Values
    ensures Kept(src) && Inv(src, obj, result, d) && d.made == Made(d.node)
    ensures StandsAt(src, obj, d, Child(q, segment), next)
    ensures d.picked == c.picked && d.built == c.built + {Child(q, segment)}
    ensures forall p :: p in d.node ==> (p in c.node && d.node[p] == c.node[p]) || fresh(d.node[p])
  {
    ghost var p := Child(q, segment);
    ResolvedInside(src, obj, p);
    if q in c.node {
      StepFromNode(src, obj, result, c, q, segment);
    } else {
      StepFromShared(src, obj, result, c, q, target, segment);
      WholeBelow(c.picked, q, p);
    }
    if segment !in target.members || !target.members[segment].Ref? {
      d := AddChild(src, obj, result, c, q, target, segment);
    } else {
      d := c.(built := c.built + {p});
      BuiltInside(src, obj, result, c, p);
    }
    next := target.members[segment].o;
  }

  lemma {:induction false} WholeBelow(picked: set<Path>, q: Path, p: Path)
    requires Whole(picked, q) && q <= p
    ensures Whole(picked, p)
  {
    var h :| h in picked && h <= q;
    assert h <= p;
  }

  ghost predicate BuiltIsLeads(c: Copy) {
    forall p :: p in c.built <==> Leads(c.picked, p)
  }

  /** The copy after a pick: a member of a new object, or one more name for what a shared subtree holds. */
  ghost function Picked(c: Copy, f: Path, v: Value): Copy
    requires f != [] && c.made.Keys == c.node.Keys
  {
    if Init(f) in c.node then WithPick(c, f, v)
    else c.(built := c.built + {f}, picked := c.picked + {f})
  }

  lemma {:induction false} PickedKeepsInv(src: Heap, obj: Obj, result: Obj, c: Copy, f: Path, v: Value, target: Obj)
    requires Inv(src, obj, result, c) && f != [] && Resolve(src, obj, f) == Some(v)
    requires StandsAt(src, obj, c, Init(f), target)
    ensures Inv(src, obj, result, Picked(c, f, v))
  {
    if Init(f) in c.node {
      PickKeepsInv(src, obj, result, c, f, v);
    } else {
      WholeBelow(c.picked, Init(f), f);
      BuiltInside(src, obj, result, c, f);
      PickInside(src, obj, result, c.(built := c.built + {f}), f);
    }
  }

  /** Sets the member at the end of a path. Inside a shared subtree this writes what is there already. */
  method SetLast(ghost src: Heap, ghost obj: Obj, ghost result: Obj, ghost c: Copy, ghost f: Path, target: Obj, segment: string, value: Value)
    returns (ghost d: Copy)
    requires Kept(src) && Closed(src) && obj in src && Inv(src, obj, result, c) && c.made == Made(c.node)
    requires f != [] && Last(f) == segment && Resolve(src, obj, f) == Some(value) && StandsAt(src, obj, c, Init(f), target)
    modifies target
    ensures Kept(src) && Inv(src, obj, result, d) && d.made == Made(d.node)
    ensures d == Picked(c, f, value)
  {
    hide Inv;
    InvGives(src, obj, result, c, Init(f));
    PickedKeepsInv(src, obj, result, c, f, value, target);
    ResolvedInside(src, obj, Init(f));
    d := Picked(c, f, value);
    SetMember(src, c.node, Init(f), target, segment, value);
  }

  /** The paths on the way to a path, and the path. */
  function PathsTo(f: Path): set<Path>
    decreases |f|
  {
    if f == [] then {} else PathsTo(Init(f)) + {f}
  }

  lemma {:induction false} OnTheWay(f: Path, p: Path)
    ensures p in PathsTo(f) <==> p != [] && p <= f
    decreases |f|
  {
    if f != [] {
      OnTheWay(Init(f), p);
      PrefixOfChild(p, f);
    }
  }

  lemma {:induction false} LeadsWith(c: Copy, d: Copy, f: Path)
    requires f != [] && BuiltIsLeads(c) && d.picked == c.picked + {f}
    requires d.built == c.built + PathsTo(f)
    ensures BuiltIsLeads(d)
  {
    forall p ensures p in d.built <==> Leads(d.picked, p) {
      OnTheWay(f, p);
      if p in c.built {
        var h :| h in c.picked && p <= h;
        assert h in d.picked;
      }
      if p != [] && p <= f { assert f in d.picked; }
    }
  }

  lemma StandsAtRoot(src: Heap, obj: Obj, result: Obj, c: Copy)
    requires Inv(src, obj, result, c)
    ensures StandsAt(src, obj, c, [], result) && [] in c.node && result == c.node[[]]
  {
  }

  /** Rebuilds the way to a path: the loop that walks the result. */
  method Walk(ghost src: Heap, ghost obj: Obj, result: Obj, ghost c: Copy, segments: Path) returns (target: Obj, ghost d: Copy)
    requires Kept(src) && Closed(src) && obj in src && Inv(src, obj, result, c) && c.made == Made(c.node)
    requires segments != [] && Resolve(src, obj, segments).Some?
    modifies c.node.Values
    ensures Kept(src) && Inv(src, obj, result, d) && d.made == Made(d.node)
    ensures StandsAt(src, obj, d, Init(segments), target)
    ensures d.picked == c.picked && d.built == c.built + PathsTo(Init(segments))
    ensures forall p :: p in d.node ==> (p in c.node && d.node[p] == c.node[p]) || fresh(d.node[p])
  {
    hide Inv;
    target := result;
    d := c;
    StandsAtRoot(src, obj, result, c);
    for i := 0 to |segments| - 1
      invariant Kept(src) && Inv(src, obj, result, d) && d.made == Made(d.node)
      invariant StandsAt(src, obj, d, segments[..i], target)
      invariant d.picked == c.picked && d.built == c.built + PathsTo(segments[..i])
      invariant forall p :: p in d.node ==> (p in c.node && d.node[p] == c.node[p]) || fresh(d.node[p])
    {
      ghost var q := segments[..i];
      assert segments[..i + 1] == Child(q, segments[i]);
      PrefixResolves(src, obj, segments[..i + 1], segments);
      target, d := Descend(src, obj, result, d, q, target, segments[i]);
    }
  }

  /** Rebuilds a path in the copy and sets its last member. */
  method Place(ghost src: Heap, ghost obj: Obj, result: Obj, ghost c: Copy, segments: Path, value: Value) returns (ghost d: Copy)
    requires Kept(src) && Closed(src) && obj in src && Inv(src, obj, result, c) && c.made == Made(c.node) && BuiltIsLeads(c)
    requires segments != [] && Resolve(src, obj, segments) == Some(value)
    modifies src.Keys, c.node.Values
    ensures Kept(src) && Inv(src, obj, result, d) && d.made == Made(d.node) && BuiltIsLeads(d)
    ensures d.picked == c.picked + {segments}
    ensures forall p :: p in d.node ==> (p in c.node && d.node[p] == c.node[p]) || fresh(d.node[p])
  {
    hide Inv;
    var target;
    target, d := Walk(src, obj, result, c, segments);
    StandsInside(src, obj, d, Init(segments), target);
    d := SetLast(src, obj, result, d, segments, target, segments[|segments| - 1], value);
    LeadsWith(c, d, segments);
  }

  lemma {:induction false} StandsInside(src: Heap, obj: Obj, c: Copy, q: Path, target: Obj)
    requires Closed(src) && obj in src && StandsAt(src, obj, c, q, target)
    ensures target in src || target in c.node.Values
  {
    ResolvedInside(src, obj, q);
  }

  lemma {:induction false} TopMember(src: Heap, obj: Obj, p: Path)
    requires obj in src && |p| == 1
    ensures Init(p) == [] && Last(p) == p[0]
    ensures Resolve(src, obj, p) == if p[0] in src[obj] then Some(src[obj][p[0]]) else None
  {
    assert Resolve(src, obj, []) == Some(Ref(obj));
  }

  /** Copies a member of the source itself. */
  method SetTop(ghost src: Heap, obj: Obj, result: Obj, ghost c: Copy, field: string) returns (ghost d: Copy)
    requires Kept(src) && Closed(src) && obj in src && Inv(src, obj, result, c) && c.made == Made(c.node) && BuiltIsLeads(c)
    requires field in obj.members
    modifies c.node.Values
    ensures Kept(src) && Inv(src, obj, result, d) && d.made == Made(d.node) && BuiltIsLeads(d)
    ensures d.picked == c.picked + {[field]}
    ensures forall p :: p in d.node ==> p in c.node && d.node[p] == c.node[p]
  {
    hide Inv;
    TopMember(src, obj, [field]);
    StandsAtRoot(src, obj, result, c);
    d := SetLast(src, obj, result, c, [field], result, field, obj.members[field]);
    LeadsWith(c, d, [field]);
  }

  lemma {:induction false} OnePart(s: string)
    requires |Split(s, '.')| == 1
    ensures Split(s, '.') == [s]
  {
    if s != "" {
      OnePart(s[1..]);
      assert s == [s[0]] + s[1..];
    }
  }

  method PickFields(obj: Obj, fields: seq<string>, ghost region: set<Obj>) returns (result: Obj, ghost added: set<Obj>)
    requires obj in region && Closed(Snapshot(region))
    modifies region
    ensures fresh(added) && result in added
    ensures forall o :: o in region ==> o.members == old(o.members)
    ensures IsPick(old(Snapshot(region)), obj, Snapshot(region + added), result, Picks(old(Snapshot(region)), obj, fields))
  {
    hide Inv;
    ghost var src := Snapshot(region);
    assert src.Keys == region;
    result := new Obj();
    ghost var c := Copy(map[[] := result], map[[] := map[]], {}, {});
    EmptyCopy(src, obj, result);
    for i := 0 to |fields|
      invariant Kept(src) && Inv(src, obj, result, c) && c.made == Made(c.node) && BuiltIsLeads(c)
      invariant c.picked == Picks(src, obj, fields[..i])
      invariant forall p :: p in c.node ==> fresh(c.node[p])
    {
      var segments := Segments(fields[i]);
      assert fields[..i + 1][..i] == fields[..i];
      if Refused(segments) { continue; }
      if |segments| == 1 {
        OnePart(fields[i]);
        TopMember(src, obj, segments);
        if fields[i] in obj.members {
          c := SetTop(src, obj, result, c, fields[i]);
        }
      } else {
        var found := Lookup(obj, segments, src);
        if found.Some? {
          c := Place(src, obj, result, c, segments, found.value);
        }
      }
    }
    assert fields[..|fields|] == fields;
    added := c.node.Values;
    CopyOfSource(src, obj, result, c, Snapshot(region + added), fields);
  }

  lemma EmptyCopy(src: Heap, obj: Obj, result: Obj)
    requires obj in src && result !in src
    ensures Inv(src, obj, result, Copy(map[[] := result], map[[] := map[]], {}, {}))
    ensures BuiltIsLeads(Copy(map[[] := result], map[[] := map[]], {}, {}))
  {
  }

  lemma {:induction false} PicksExist(src: Heap, obj: Obj, fields: seq<string>)
    ensures forall h :: h in Picks(src, obj, fields) ==> Resolve(src, obj, h).Some?
  {
    if fields != [] { PicksExist(src, obj, fields[..|fields| - 1]); }
  }

  lemma {:induction false} CopyOfSource(src: Heap, obj: Obj, result: Obj, c: Copy, heap: Heap, fields: seq<string>)
    requires Inv(src, obj, result, c) && Closed(src) && obj in src && BuiltIsLeads(c)
    requires c.picked == Picks(src, obj, fields) && Holds(heap, src, c)
    ensures result in c.node.Values
    ensures IsPick(src, obj, heap, result, c.picked)
  {
    PicksExist(src, obj, fields);
    CopyIsPick(src, obj, result, c, heap);
  }

  // ----- picking twice

  lemma {:induction false} SamePicks(src: Heap, obj: Obj, heap: Heap, result: Obj, all: set<Path>, fields: seq<string>)
    requires IsPick(src, obj, heap, result, all) && Picks(src, obj, fields) <= all
    ensures Picks(heap, result, fields) == Picks(src, obj, fields)
  {
    if fields != [] {
      var p := Segments(fields[|fields| - 1]);
      SamePicks(src, obj, heap, result, all, fields[..|fields| - 1]);
      if !Refused(p) && Resolve(src, obj, p).Some? {
        assert p in all;
        assert Whole(all, p);
      }
    }
  }

  /** A second pick of the same fields takes every path of the first one: the same value, or an object for an object. */
  lemma {:induction false} PickIsIdempotent(src: Heap, obj: Obj, heap: Heap, result: Obj, heap2: Heap, result2: Obj,
                                            fields: seq<string>)
    requires IsPick(src, obj, heap, result, Picks(src, obj, fields))
    requires IsPick(heap, result, heap2, result2, Picks(heap, result, fields))
    ensures forall p :: p != [] ==>
              && Resolve(heap2, result2, p).Some? == Resolve(heap, result, p).Some?
              && (Resolve(heap, result, p).Some? ==>
                    || Resolve(heap2, result2, p) == Resolve(heap, result, p)
                    || (Resolve(heap2, result2, p).value.Ref? && Resolve(heap, result, p).value.Ref?))
  {
    SamePicks(src, obj, heap, result, Picks(src, obj, fields), fields);
  }

  /** The names of a path can stand in a field: none holds a dot, and none is a name that leads to a prototype. */
  predicate Allowed(p: Path) {
    && p != []
    && forall i :: 0 <= i < |p| ==> '.' !in p[i] && p[i] != "__proto__" && p[i] != "prototype" && p[i] != "constructor"
  }

  /** The picked paths are exactly the allowed ones whose names, joined with dots, are among the fields, and which exist. */
  lemma {:induction false} PicksAre(heap: Heap, root: Obj, fields: seq<string>, p: Path)
    ensures p in Picks(heap, root, fields) <==> Allowed(p) && Join(p, '.') in fields && Resolve(heap, root, p).Some?
  {
    if fields != [] {
      var field := fields[|fields| - 1];
      PicksAre(heap, root, fields[..|fields| - 1], p);
      FieldNames(field, p);
    }
  }

  lemma {:induction false} FieldNames(field: string, p: Path)
    ensures p == Segments(field) && !Refused(p) <==> Allowed(p) && Join(p, '.') == field
  {
    JoinOfSplit(field, '.');
    SplitParts(field, '.');
    if p == Segments(field) { assert forall i :: 0 <= i < |p| ==> p[i] in p; }
    if Allowed(p) { SplitOfJoin(p, '.'); }
  }

  /** Every allowed path that is requested and exists is there, with the value of the source. */
  lemma {:induction false} RequestedIsPicked(src: Heap, obj: Obj, heap: Heap, result: Obj, fields: seq<string>, p: Path)
    requires IsPick(src, obj, heap, result, Picks(src, obj, fields))
    requires Allowed(p) && Join(p, '.') in fields && Resolve(src, obj, p).Some?
    ensures Resolve(heap, result, p) == Resolve(src, obj, p)
  {
    PicksAre(src, obj, fields, p);
    assert Whole(Picks(src, obj, fields), p);
  }

  /** A field with a prototype name at any position adds nothing to the copy. */
  lemma {:induction false} PrototypeNamesAreRefused(heap: Heap, root: Obj, fields: seq<string>, p: Path, i: nat)
    requires i < |p| && (p[i] == "__proto__" || p[i] == "prototype" || p[i] == "constructor")
    requires forall j :: 0 <= j < |p| ==> '.' !in p[j]
    ensures Picks(heap, root, fields + [Join(p, '.')]) == Picks(heap, root, fields)
  {
    var more := fields + [Join(p, '.')];
    SplitOfJoin(p, '.');
    forall q ensures q in Picks(heap, root, more) <==> q in Picks(heap, root, fields) {
      PicksAre(heap, root, more, q);
      PicksAre(heap, root, fields, q);
      if Allowed(q) && Join(q, '.') == Join(p, '.') { SplitOfJoin(q, '.'); }
    }
  }
}
