/**
 * Registration of the custom workflows and events of a config: the cycle check of the `extends` chains, the
 * order that registers a parent before its child, and the rollback of a call that fails.
 */
module Registration {
  import opened Texts
  import opened Wrappers

  /** A guard of a workflow, and a workflow with what it extends. An empty `parent` extends nothing. */
  datatype Guard = Guard(id: string, command: string)
  datatype Workflow = Workflow(parent: string, initialPhase: string, guards: seq<Guard>, body: string)

  /** The workflows of a config by name. `names` gives the order of the entries. */
  datatype Config = Config(workflows: map<string, Workflow>, names: seq<string>) {
    ghost predicate Valid() {
      && (forall n :: n in names <==> n in workflows)
      && forall i, j :: 0 <= i < j < |names| ==> names[i] != names[j]
    }
  }

  // ----- the cycle check

  function Next(w: map<string, Workflow>, name: string): Option<string> {
    if name in w && w[name].parent != "" then Some(w[name].parent) else None
  }

  /** The chain from a name ends after exactly `n` steps. */
  predicate EndsAfter(w: map<string, Workflow>, name: string, n: nat)
    decreases n
  {
    match Next(w, name)
    case None => n == 0
    case Some(parent) => n > 0 && EndsAfter(w, parent, n - 1)
  }

  ghost predicate Ends(w: map<string, Workflow>, name: string) {
    exists n: nat :: EndsAfter(w, name, n)
  }

  ghost predicate Acyclic(w: map<string, Workflow>) {
    forall name :: name in w ==> Ends(w, name)
  }

  /** The name that the chain holds after some steps, if it is that long. */
  function Ancestor(w: map<string, Workflow>, name: string, n: nat): Option<string> {
    if n == 0 then Some(name)
    else
      match Ancestor(w, name, n - 1)
      case None => None
      case Some(at) => Next(w, at)
  }

  lemma {:induction false} EndsOnce(w: map<string, Workflow>, name: string, n: nat, m: nat)
    requires EndsAfter(w, name, n) && EndsAfter(w, name, m)
    ensures n == m
    decreases n
  {
    match Next(w, name)
    case None =>
    case Some(parent) => EndsOnce(w, parent, n - 1, m - 1);
  }

  lemma {:induction false} EndsFurtherUp(w: map<string, Workflow>, name: string, n: nat, k: nat)
    requires EndsAfter(w, name, n) && Ancestor(w, name, k).Some?
    ensures k <= n && EndsAfter(w, Ancestor(w, name, k).value, n - k)
    decreases k
  {
    if k > 0 { EndsFurtherUp(w, name, n, k - 1); }
  }

  lemma {:induction false} EndsFromAbove(w: map<string, Workflow>, name: string, k: nat)
    requires Ancestor(w, name, k).Some? && Next(w, Ancestor(w, name, k).value).None?
    ensures EndsAfter(w, name, k)
    decreases k
  {
    AncestorsEnd(w, name, k, k);
  }

  lemma {:induction false} AncestorsEnd(w: map<string, Workflow>, name: string, k: nat, j: nat)
    requires j <= k && Ancestor(w, name, k).Some? && Next(w, Ancestor(w, name, k).value).None?
    ensures Ancestor(w, name, k - j).Some? && EndsAfter(w, Ancestor(w, name, k - j).value, j)
    decreases j
  {
    if j > 0 { AncestorsEnd(w, name, k, j - 1); }
  }

  /** A name that comes twice in a chain leads around for ever. */
  lemma {:induction false} RepeatNeverEnds(w: map<string, Workflow>, name: string, i: nat, j: nat)
    requires i < j && Ancestor(w, name, j).Some? && Ancestor(w, name, i) == Ancestor(w, name, j)
    ensures !Ends(w, name)
  {
    forall n: nat ensures !EndsAfter(w, name, n) {
      if EndsAfter(w, name, n) {
        EndsFurtherUp(w, name, n, i);
        EndsFurtherUp(w, name, n, j);
        EndsOnce(w, Ancestor(w, name, i).value, n - i, n - j);
      }
    }
  }

  /** Walks one chain, as the check does for each name. */
  method ChainEnds(w: map<string, Workflow>, name: string) returns (ends: bool)
    ensures ends <==> Ends(w, name)
  {
    var visited: set<string> := {};
    var current := name;
    ghost var i := 0;
    while current in w && w[current].parent != ""
      invariant visited <= w.Keys
      invariant Ancestor(w, name, i) == Some(current)
      invariant forall v :: v in visited ==> exists j :: 0 <= j < i && Ancestor(w, name, j) == Some(v)
      decreases |w.Keys - visited|
    {
      if current in visited {
        ghost var j :| 0 <= j < i && Ancestor(w, name, j) == Some(current);
        RepeatNeverEnds(w, name, j, i);
        return false;
      }
      FewerLeft(w.Keys, visited, current);
      visited := visited + {current};
      assert Ancestor(w, name, i) == Some(current);
      current := w[current].parent;
      i := i + 1;
    }
    EndsFromAbove(w, name, i);
    return true;
  }

  lemma {:induction false} FewerLeft(all: set<string>, visited: set<string>, name: string)
    requires name in all && name !in visited
    ensures |all - (visited + {name})| < |all - visited|
  {
    assert all - visited == (all - (visited + {name})) + {name};
  }

  /** The check accepts a config exactly when every chain ends. */
  method CycleCheck(c: Config) returns (accepted: bool)
    requires c.Valid()
    ensures accepted <==> Acyclic(c.workflows)
  {
    accepted := true;
    for i := 0 to |c.names|
      invariant accepted <==> forall k :: 0 <= k < i ==> Ends(c.workflows, c.names[k])
    {
      var ends := ChainEnds(c.workflows, c.names[i]);
      if !ends { accepted := false; }
    }
    assert forall n :: n in c.workflows ==> n in c.names;
  }

  // ----- the order

  datatype Order = Order(visited: set<string>, sorted: seq<string>)

  function VisitFrom(w: map<string, Workflow>, s: Order, name: string): Order
    requires name in w
    decreases |w.Keys - s.visited|
  {
    if name in s.visited then s
    else
      FewerLeft(w.Keys, s.visited, name);
      var marked := s.(visited := s.visited + {name});
      var parent := w[name].parent;
      var above := if parent != "" && parent in w then VisitFrom(w, marked, parent) else marked;
      above.(sorted := above.sorted + [name])
  }

  function VisitAll(w: map<string, Workflow>, names: seq<string>): Order
    requires forall n :: n in names ==> n in w
  {
    if names == [] then Order({}, [])
    else VisitFrom(w, VisitAll(w, names[..|names| - 1]), names[|names| - 1])
  }

  /** The nested `visit` with the set and the list that it fills. */
  class Sorter {
    const workflows: map<string, Workflow>
    var visited: set<string>
    var sorted: seq<string>

    constructor (w: map<string, Workflow>)
      ensures workflows == w && visited == {} && sorted == []
    {
      workflows, visited, sorted := w, {}, [];
    }

    function State(): Order
      reads this
    {
      Order(visited, sorted)
    }

    method Visit(name: string)
      requires name in workflows
      modifies this
      ensures State() == VisitFrom(workflows, old(State()), name)
      decreases |workflows.Keys - visited|
    {
      if name in visited { return; }
      FewerLeft(workflows.Keys, visited, name);
      visited := visited + {name};
      var def := workflows[name];
      if def.parent != "" && def.parent in workflows {
        Visit(def.parent);
      }
      sorted := sorted + [name];
    }
  }

  method TopoSortWorkflows(c: Config) returns (sorted: seq<string>)
    requires c.Valid()
    ensures sorted == VisitAll(c.workflows, c.names).sorted
  {
    var sorter := new Sorter(c.workflows);
    for i := 0 to |c.names|
      invariant sorter.workflows == c.workflows
      invariant sorter.State() == VisitAll(c.workflows, c.names[..i])
    {
      assert c.names[..i + 1][..i] == c.names[..i];
      sorter.Visit(c.names[i]);
    }
    assert c.names[..|c.names|] == c.names;
    sorted := sorter.sorted;
  }

  predicate Distinct(xs: seq<string>) {
    forall i, j :: 0 <= i < j < |xs| ==> xs[i] != xs[j]
  }

  /** A visit adds the new names, each of them once. */
  lemma {:induction false} VisitAdds(w: map<string, Workflow>, s: Order, name: string)
    requires name in w && Distinct(s.sorted) && forall x :: x in s.sorted ==> x in s.visited
    ensures var t := VisitFrom(w, s, name);
            && name in t.visited && s.visited <= t.visited && t.visited <= s.visited + w.Keys
            && s.sorted <= t.sorted && Distinct(t.sorted)
            && forall x :: x in t.sorted <==> x in s.sorted || x in t.visited - s.visited
    decreases |w.Keys - s.visited|
  {
    if name !in s.visited {
      FewerLeft(w.Keys, s.visited, name);
      var marked := s.(visited := s.visited + {name});
      if w[name].parent != "" && w[name].parent in w { VisitAdds(w, marked, w[name].parent); }
    }
  }

  lemma {:induction false} AllAdded(w: map<string, Workflow>, names: seq<string>)
    requires forall n :: n in names ==> n in w
    ensures var t := VisitAll(w, names);
            && Distinct(t.sorted) && t.visited <= w.Keys
            && (forall x :: x in t.sorted <==> x in t.visited) && (forall n :: n in names ==> n in t.visited)
  {
    if names != [] {
      var init, last := names[..|names| - 1], names[|names| - 1];
      AllAdded(w, init);
      VisitAdds(w, VisitAll(w, init), last);
      assert forall n :: n in names ==> n in init || n == last;
    }
  }

  /** The parent of a listed workflow, when it is a workflow of the config too, stands before it. */
  predicate ParentFirst(w: map<string, Workflow>, sorted: seq<string>) {
    forall i :: 0 <= i < |sorted| ==> ParentBefore(w, sorted, i)
  }

  predicate ParentBefore(w: map<string, Workflow>, sorted: seq<string>, i: nat)
    requires i < |sorted|
  {
    sorted[i] in w && w[sorted[i]].parent != "" && w[sorted[i]].parent in w ==> w[sorted[i]].parent in sorted[..i]
  }

  lemma {:induction false} AppendKeepsOrder(w: map<string, Workflow>, sorted: seq<string>, name: string)
    requires ParentFirst(w, sorted) && name in w
    requires w[name].parent != "" && w[name].parent in w ==> w[name].parent in sorted
    ensures ParentFirst(w, sorted + [name])
  {
    var next := sorted + [name];
    forall i | 0 <= i < |next| ensures ParentBefore(w, next, i) {
      assert next[..i] == sorted[..i];
      if i < |sorted| { assert ParentBefore(w, sorted, i); } else { assert sorted[..i] == sorted; }
    }
  }

  /** With chains that end, whatever is marked and no longer than the visited chain is listed already. */
  lemma {:induction false} VisitKeepsOrder(w: map<string, Workflow>, s: Order, name: string, n: nat)
    requires name in w && EndsAfter(w, name, n) && ParentFirst(w, s.sorted)
    requires forall x, m: nat :: x in s.visited && EndsAfter(w, x, m) && m <= n ==> x in s.sorted
    ensures var t := VisitFrom(w, s, name);
            && ParentFirst(w, t.sorted) && name in t.sorted
            && (forall x :: x in t.visited ==> x in s.visited || x in t.sorted)
            && (forall x :: x in s.sorted ==> x in t.sorted)
    decreases n
  {
    if name in s.visited {
    } else {
      var marked := s.(visited := s.visited + {name});
      var parent := w[name].parent;
      if parent != "" && parent in w {
        forall x, m: nat | x in marked.visited && EndsAfter(w, x, m) && m <= n - 1 ensures x in marked.sorted {
          if x == name { EndsOnce(w, name, n, m); }
        }
        VisitKeepsOrder(w, marked, parent, n - 1);
        AppendKeepsOrder(w, VisitFrom(w, marked, parent).sorted, name);
      } else {
        AppendKeepsOrder(w, s.sorted, name);
      }
    }
  }

  lemma {:induction false} AllKeepOrder(w: map<string, Workflow>, names: seq<string>)
    requires Acyclic(w) && forall n :: n in names ==> n in w
    ensures ParentFirst(w, VisitAll(w, names).sorted)
  {
    if names != [] {
      var init, last := names[..|names| - 1], names[|names| - 1];
      AllKeepOrder(w, init);
      AllAdded(w, init);
      var n: nat :| EndsAfter(w, last, n);
      VisitKeepsOrder(w, VisitAll(w, init), last, n);
    }
  }

  lemma {:induction false} ListedEnds(w: map<string, Workflow>, sorted: seq<string>, i: nat)
    requires ParentFirst(w, sorted) && i < |sorted|
    ensures Ends(w, sorted[i])
    decreases i
  {
    var name := sorted[i];
    match Next(w, name)
    case None => assert EndsAfter(w, name, 0);
    case Some(parent) =>
      if parent in w {
        assert ParentBefore(w, sorted, i);
        var j :| 0 <= j < i && sorted[..i][j] == parent;
        ListedEnds(w, sorted, j);
        var n: nat :| EndsAfter(w, parent, n);
        assert EndsAfter(w, name, n + 1);
      } else {
        assert EndsAfter(w, parent, 0) && EndsAfter(w, name, 1);
      }
  }

  /** On any config the order holds each workflow once; it puts each parent first if and only if the cycle check accepts. */
  lemma {:induction false} OrderIsParentFirstIffAcyclic(c: Config)
    requires c.Valid()
    ensures var sorted := VisitAll(c.workflows, c.names).sorted;
            && Distinct(sorted) && (forall n :: n in sorted <==> n in c.workflows)
            && (ParentFirst(c.workflows, sorted) <==> Acyclic(c.workflows))
  {
    var w, sorted := c.workflows, VisitAll(c.workflows, c.names).sorted;
    AllAdded(w, c.names);
    if Acyclic(w) { AllKeepOrder(w, c.names); }
    if ParentFirst(w, sorted) {
      forall name | name in w ensures Ends(w, name) {
        var i :| 0 <= i < |sorted| && sorted[i] == name;
        ListedEnds(w, sorted, i);
      }
    }
  }

  // ----- the registries

  /** A state machine of a workflow type: what its definition and the registered state machines give. */
  type Hsm = string

  datatype EventDef = EventDef(name: string, source: string, schema: Option<string>)

  /** The contents of the seven registries that one call writes. */
  datatype Tables = Tables(hsms: map<string, Hsm>, phases: map<string, string>, types: set<string>,
                           guards: map<string, Guard>, events: set<string>, sources: map<string, string>,
                           schemas: map<string, string>)

  /** What the call does not define: built-in names, event names, and how a definition becomes a state machine. */
  datatype Host = Host(builtIn: set<string>, builtInEvents: set<string>, eventName: string -> bool,
                       convert: (map<string, Hsm>, string, Workflow) -> Option<Hsm>)

  predicate WordChar(c: char) {
    'a' <= c <= 'z' || '0' <= c <= '9'
  }

  /** Lower-case words with one dash between two of them. */
  predicate Kebab(s: string) {
    && s != "" && s[0] != '-' && s[|s| - 1] != '-'
    && (forall i :: 0 <= i < |s| ==> WordChar(s[i]) || s[i] == '-')
    && forall i :: 0 <= i < |s| - 1 ==> !(s[i] == '-' && s[i + 1] == '-')
  }

  /** A part between two dashes. */
  predicate KebabWord(part: string) {
    part != "" && forall i :: 0 <= i < |part| ==> 'a' <= part[i] <= 'z' || '0' <= part[i] <= '9'
  }

  /** What may follow a word character: more of them, and words after single dashes. */
  predicate KebabTail(s: string) {
    && (s != "" ==> s[|s| - 1] != '-')
    && (forall i :: 0 <= i < |s| ==> WordChar(s[i]) || s[i] == '-')
    && forall i :: 0 <= i < |s| - 1 ==> !(s[i] == '-' && s[i + 1] == '-')
  }

  predicate AllWords(parts: seq<string>) {
    forall i :: 0 <= i < |parts| ==> KebabWord(parts[i])
  }

  predicate TailParts(parts: seq<string>)
    requires parts != []
  {
    (parts[0] == "" || KebabWord(parts[0])) && AllWords(parts[1..])
  }

  lemma WordsSplit(parts: seq<string>)
    requires parts != []
    ensures AllWords(parts) <==> KebabWord(parts[0]) && AllWords(parts[1..])
  {
    assert forall i :: 0 < i < |parts| ==> parts[i] == parts[1..][i - 1];
  }

  lemma WordGrows(c: char, word: string)
    ensures KebabWord([c] + word) <==> WordChar(c) && (word == "" || KebabWord(word))
  {
    var more := [c] + word;
    assert more[0] == c && forall i :: 0 <= i < |word| ==> more[i + 1] == word[i];
  }

  lemma {:induction false} TailIff(s: string)
    ensures KebabTail(s) <==> TailParts(Split(s, '-'))
  {
    if s != "" {
      var rest := s[1..];
      var parts := Split(rest, '-');
      TailIff(rest);
      TailStep(s);
      WordsSplit(parts);
      FirstPart(rest);
      if s[0] == '-' {
        assert ([""] + parts)[1..] == parts;
      } else {
        WordGrows(s[0], parts[0]);
        assert ([[s[0]] + parts[0]] + parts[1..])[1..] == parts[1..];
      }
      hide KebabTail, KebabWord, AllWords;
    }
  }

  lemma TailStep(s: string)
    requires s != ""
    ensures var rest := s[1..]; KebabTail(s) <==> KebabTail(rest) && (WordChar(s[0]) || (s[0] == '-' && rest != "" && rest[0] != '-'))
  {
    var rest := s[1..];
    assert forall i :: 0 <= i < |rest| ==> rest[i] == s[i + 1];
    assert forall i :: 0 < i < |s| ==> s[i] == rest[i - 1];
  }

  lemma FirstPart(s: string)
    ensures Split(s, '-')[0] == "" <==> s == "" || s[0] == '-'
  {
  }

  /** A name is in kebab case exactly when it splits at dashes into words of lower-case letters and digits. */
  lemma {:induction false} KebabIff(s: string)
    ensures Kebab(s) <==> var parts := Split(s, '-'); forall i :: 0 <= i < |parts| ==> KebabWord(parts[i])
  {
    TailIff(s);
    FirstPart(s);
    WordsSplit(Split(s, '-'));
  }

  function GuardKey(name: string, guardId: string): string {
    name + ":" + guardId
  }

  function Trimmed(names: seq<string>): set<string> {
    set n | n in names :: Trim(n)
  }

  function Elements(xs: seq<string>): set<string> {
    set x | x in xs
  }

  class Registries {
    const host: Host
    var hsms: map<string, Hsm>
    var phases: map<string, string>
    var types: set<string>
    var guards: map<string, Guard>
    var events: set<string>
    var sources: map<string, string>
    var schemas: map<string, string>

    constructor (h: Host, t: Tables)
      ensures host == h && State() == t
    {
      host := h;
      hsms, phases, types, guards, events, sources, schemas :=
        t.hsms, t.phases, t.types, t.guards, t.events, t.sources, t.schemas;
    }

    function State(): Tables
      reads this
    {
      Tables(hsms, phases, types, guards, events, sources, schemas)
    }

    method RegisterWorkflowType(name: string, definition: Workflow) returns (ok: bool)
      modifies this`hsms, this`phases
      ensures ok <==> name !in host.builtIn && host.convert(old(hsms), name, definition).Some?
      ensures ok ==> hsms == old(hsms)[name := host.convert(old(hsms), name, definition).value]
      ensures ok ==> phases == old(phases)[name := definition.initialPhase]
      ensures !ok ==> hsms == old(hsms) && phases == old(phases)
    {
      if name in host.builtIn { return false; }
      var hsm := host.convert(hsms, name, definition);
      if hsm.None? { return false; }
      hsms := hsms[name := hsm.value];
      phases := phases[name := definition.initialPhase];
      return true;
    }

    method UnregisterWorkflowType(name: string)
      requires name !in host.builtIn
      modifies this`hsms, this`phases
      ensures hsms == old(hsms) - {name} && phases == old(phases) - {name}
    {
      hsms := hsms - {name};
      phases := phases - {name};
    }

    method ExtendWorkflowTypeEnum(name: string) returns (ok: bool)
      modifies this`types
      ensures ok <==> Kebab(Trim(name)) && Trim(name) !in host.builtIn
      ensures types == old(types) + if ok then {Trim(name)} else {}
    {
      var trimmed := Trim(name);
      if trimmed == "" || !Kebab(trimmed) { return false; }
      if trimmed in host.builtIn { return false; }
      types := types + {trimmed};
      return true;
    }

    method RegisterEventType(e: EventDef) returns (ok: bool)
      modifies this`events, this`sources, this`schemas
      ensures ok <==> host.eventName(e.name) && e.name !in host.builtInEvents && e.name !in old(events)
      ensures ok ==> events == old(events) + {e.name} && sources == old(sources)[e.name := e.source]
      ensures ok ==> schemas == if e.schema.Some? then old(schemas)[e.name := e.schema.value] else old(schemas)
      ensures !ok ==> State() == old(State())
    {
      if !host.eventName(e.name) { return false; }
      if e.name in host.builtInEvents { return false; }
      if e.name in events { return false; }
      events := events + {e.name};
      sources := sources[e.name := e.source];
      if e.schema.Some? { schemas := schemas[e.name := e.schema.value]; }
      return true;
    }

    method UnregisterEventType(name: string)
      requires name !in host.builtInEvents
      modifies this`events, this`sources, this`schemas
      ensures events == old(events) - {name} && sources == old(sources) - {name} && schemas == old(schemas) - {name}
    {
      events := events - {name};
      sources := sources - {name};
      schemas := schemas - {name};
    }
  }

  // ----- what one call does

  /** What a call has registered so far. */
  datatype Done = Done(workflows: seq<string>, types: seq<string>, guardKeys: seq<string>, events: seq<string>)

  /** The guard keys of some guards of a workflow. */
  function GuardKeys(name: string, guards: seq<Guard>): seq<string> {
    if guards == [] then [] else GuardKeys(name, guards[..|guards| - 1]) + [GuardKey(name, guards[|guards| - 1].id)]
  }

  /** The guard table after some guards of a workflow; a later guard with the same key wins. */
  function GuardsAfter(table: map<string, Guard>, name: string, guards: seq<Guard>): map<string, Guard> {
    if guards == [] then table
    else
      var last := guards[|guards| - 1];
      GuardsAfter(table, name, guards[..|guards| - 1])[GuardKey(name, last.id) := last]
  }

  /** How far a call came: whether it still goes on, the tables, and what it registered. */
  datatype Progress = Progress(ok: bool, tables: Tables, done: Done)

  const NOTHING := Done([], [], [], [])

  function OneWorkflow(h: Host, t: Tables, d: Done, name: string, def: Workflow): Progress {
    var hsm := h.convert(t.hsms, name, def);
    if name in h.builtIn || hsm.None? then Progress(false, t, d)
    else
      var t1 := t.(hsms := t.hsms[name := hsm.value], phases := t.phases[name := def.initialPhase]);
      var d1 := d.(workflows := d.workflows + [name]);
      if !Kebab(Trim(name)) || Trim(name) in h.builtIn then Progress(false, t1, d1)
      else
        Progress(true, t1.(types := t1.types + {Trim(name)}, guards := GuardsAfter(t1.guards, name, def.guards)),
                 d1.(types := d1.types + [name], guardKeys := d1.guardKeys + GuardKeys(name, def.guards)))
  }

  function Workflows(h: Host, t: Tables, w: map<string, Workflow>, names: seq<string>): Progress
    requires forall n :: n in names ==> n in w
  {
    if names == [] then Progress(true, t, NOTHING)
    else
      var p, last := Workflows(h, t, w, names[..|names| - 1]), names[|names| - 1];
      if p.ok then OneWorkflow(h, p.tables, p.done, last, w[last]) else p
  }

  function OneEvent(h: Host, t: Tables, d: Done, e: EventDef): Progress {
    if !h.eventName(e.name) || e.name in h.builtInEvents || e.name in t.events then Progress(false, t, d)
    else
      Progress(true, t.(events := t.events + {e.name}, sources := t.sources[e.name := e.source],
                        schemas := if e.schema.Some? then t.schemas[e.name := e.schema.value] else t.schemas),
               d.(events := d.events + [e.name]))
  }

  function Events(h: Host, start: Progress, events: seq<EventDef>): Progress {
    if events == [] then start
    else
      var p := Events(h, start, events[..|events| - 1]);
      if p.ok then OneEvent(h, p.tables, p.done, events[|events| - 1]) else p
  }

  function Sorted(c: Config): (sorted: seq<string>)
    requires c.Valid()
    ensures forall n :: n in sorted <==> n in c.workflows
  {
    OrderIsParentFirstIffAcyclic(c);
    VisitAll(c.workflows, c.names).sorted
  }

  /** The `try` block. */
  function Attempt(h: Host, t: Tables, c: Config, events: seq<EventDef>): Progress
    requires c.Valid()
  {
    Events(h, Workflows(h, t, c.workflows, Sorted(c)), events)
  }

  /** The tables without what a call registered. */
  function Without(t: Tables, d: Done): Tables {
    Tables(t.hsms - Elements(d.workflows), t.phases - Elements(d.workflows), t.types - Elements(d.types),
           t.guards - Elements(d.guardKeys), t.events - Elements(d.events), t.sources - Elements(d.events),
           t.schemas - Elements(d.events))
  }

  /** The tables after a call: those of the `try` block, or what the `catch` block leaves of them. */
  function After(h: Host, t: Tables, c: Config, events: seq<EventDef>): Tables
    requires c.Valid()
  {
    var p := Attempt(h, t, c, events);
    if p.ok then p.tables else Without(p.tables, p.done)
  }

  // ----- the loops of the call

  method RegisterGuards(r: Registries, name: string, guards: seq<Guard>) returns (keys: seq<string>)
    modifies r`guards
    ensures r.guards == GuardsAfter(old(r.guards), name, guards) && keys == GuardKeys(name, guards)
  {
    keys := [];
    for i := 0 to |guards|
      invariant r.guards == GuardsAfter(old(r.guards), name, guards[..i]) && keys == GuardKeys(name, guards[..i])
    {
      assert guards[..i + 1][..i] == guards[..i];
      var key := GuardKey(name, guards[i].id);
      r.guards := r.guards[key := guards[i]];
      keys := keys + [key];
    }
    assert guards[..|guards|] == guards;
  }

  /** One turn of the loop over the workflows. */
  method RegisterWorkflow(r: Registries, name: string, def: Workflow, d: Done) returns (ok: bool, e: Done)
    modifies r`hsms, r`phases, r`types, r`guards
    ensures Progress(ok, r.State(), e) == OneWorkflow(r.host, old(r.State()), d, name, def)
  {
    e := d;
    ok := r.RegisterWorkflowType(name, def);
    if !ok { return; }
    e := e.(workflows := e.workflows + [name]);
    ok := r.ExtendWorkflowTypeEnum(name);
    if !ok { return; }
    e := e.(types := e.types + [name]);
    var keys := RegisterGuards(r, name, def.guards);
    e := e.(guardKeys := e.guardKeys + keys);
  }

  lemma {:induction false} FailureIsFinal(h: Host, t: Tables, w: map<string, Workflow>, names: seq<string>, n: nat)
    requires (forall m :: m in names ==> m in w) && n <= |names| && !Workflows(h, t, w, names[..n]).ok
    ensures Workflows(h, t, w, names) == Workflows(h, t, w, names[..n])
  {
    if n == |names| {
      assert names[..n] == names;
    } else {
      assert names[..|names| - 1][..n] == names[..n];
      FailureIsFinal(h, t, w, names[..|names| - 1], n);
    }
  }

  method RegisterWorkflows(r: Registries, w: map<string, Workflow>, sorted: seq<string>) returns (ok: bool, d: Done)
    requires forall n :: n in sorted ==> n in w
    modifies r`hsms, r`phases, r`types, r`guards
    ensures Progress(ok, r.State(), d) == Workflows(r.host, old(r.State()), w, sorted)
  {
    ok, d := true, NOTHING;
    for i := 0 to |sorted|
      invariant ok && Progress(ok, r.State(), d) == Workflows(r.host, old(r.State()), w, sorted[..i])
    {
      assert sorted[..i + 1][..i] == sorted[..i];
      ok, d := RegisterWorkflow(r, sorted[i], w[sorted[i]], d);
      if !ok {
        FailureIsFinal(r.host, old(r.State()), w, sorted, i + 1);
        return;
      }
    }
    assert sorted[..|sorted|] == sorted;
  }

  /** One turn of the loop over the events. */
  method RegisterEvent(r: Registries, event: EventDef, d: Done) returns (ok: bool, e: Done)
    modifies r`events, r`sources, r`schemas
    ensures Progress(ok, r.State(), e) == OneEvent(r.host, old(r.State()), d, event)
  {
    ok := r.RegisterEventType(event);
    e := if ok then d.(events := d.events + [event.name]) else d;
  }

  lemma {:induction false} EventFailureIsFinal(h: Host, start: Progress, events: seq<EventDef>, n: nat)
    requires n <= |events| && !Events(h, start, events[..n]).ok
    ensures Events(h, start, events) == Events(h, start, events[..n])
  {
    if n == |events| {
      assert events[..n] == events;
    } else {
      assert events[..|events| - 1][..n] == events[..n];
      EventFailureIsFinal(h, start, events[..|events| - 1], n);
    }
  }

  method RegisterEvents(r: Registries, events: seq<EventDef>, d: Done) returns (ok: bool, e: Done)
    modifies r`events, r`sources, r`schemas
    ensures Progress(ok, r.State(), e) == Events(r.host, Progress(true, old(r.State()), d), events)
  {
    ghost var start := Progress(true, r.State(), d);
    ok, e := true, d;
    for i := 0 to |events|
      invariant ok && Progress(ok, r.State(), e) == Events(r.host, start, events[..i])
    {
      assert events[..i + 1][..i] == events[..i];
      ok, e := RegisterEvent(r, events[i], e);
      if !ok {
        EventFailureIsFinal(r.host, start, events, i + 1);
        return;
      }
    }
    assert events[..|events|] == events;
  }

  /** The names that are left after taking some away, one by one. */
  lemma {:induction false} ElementsStep(xs: seq<string>, i: nat)
    requires i < |xs|
    ensures Elements(xs[..i + 1]) == Elements(xs[..i]) + {xs[i]}
  {
    assert xs[..i + 1] == xs[..i] + [xs[i]];
    ElementsWith(xs[..i], xs[i]);
  }

  method RemoveEvents(r: Registries, names: seq<string>)
    requires forall n :: n in names ==> n !in r.host.builtInEvents
    modifies r`events, r`sources, r`schemas
    ensures r.events == old(r.events) - Elements(names) && r.sources == old(r.sources) - Elements(names)
    ensures r.schemas == old(r.schemas) - Elements(names)
  {
    for i := 0 to |names|
      invariant r.events == old(r.events) - Elements(names[..i]) && r.sources == old(r.sources) - Elements(names[..i])
      invariant r.schemas == old(r.schemas) - Elements(names[..i])
    {
      ElementsStep(names, i);
      r.UnregisterEventType(names[i]);
    }
    assert names[..|names|] == names;
  }

  method RemoveGuards(r: Registries, keys: seq<string>)
    modifies r`guards
    ensures r.guards == old(r.guards) - Elements(keys)
  {
    for i := 0 to |keys|
      invariant r.guards == old(r.guards) - Elements(keys[..i])
    {
      ElementsStep(keys, i);
      r.guards := r.guards - {keys[i]};
    }
    assert keys[..|keys|] == keys;
  }

  method RemoveTypes(r: Registries, names: seq<string>)
    modifies r`types
    ensures r.types == old(r.types) - Elements(names)
  {
    for i := 0 to |names|
      invariant r.types == old(r.types) - Elements(names[..i])
    {
      ElementsStep(names, i);
      r.types := r.types - {names[i]};
    }
    assert names[..|names|] == names;
  }

  method RemoveWorkflows(r: Registries, names: seq<string>)
    requires forall n :: n in names ==> n !in r.host.builtIn
    modifies r`hsms, r`phases
    ensures r.hsms == old(r.hsms) - Elements(names) && r.phases == old(r.phases) - Elements(names)
  {
    for i := 0 to |names|
      invariant r.hsms == old(r.hsms) - Elements(names[..i]) && r.phases == old(r.phases) - Elements(names[..i])
    {
      ElementsStep(names, i);
      r.UnregisterWorkflowType(names[i]);
    }
    assert names[..|names|] == names;
  }

  /** `registerCustomWorkflows`. */
  method RegisterCustomWorkflows(r: Registries, c: Config, events: seq<EventDef>) returns (ok: bool)
    requires c.Valid()
    modifies r`hsms, r`phases, r`types, r`guards, r`events, r`sources, r`schemas
    ensures ok == Attempt(r.host, old(r.State()), c, events).ok
    ensures r.State() == After(r.host, old(r.State()), c, events)
  {
    ghost var t := r.State();
    var sorted := TopoSortWorkflows(c);
    assert sorted == Sorted(c);
    var d;
    ok, d := RegisterWorkflows(r, c.workflows, sorted);
    if ok {
      ok, d := RegisterEvents(r, events, d);
    } else {
      StoppedBeforeEvents(r.host, Workflows(r.host, t, c.workflows, sorted), events);
    }
    if !ok {
      AttemptAlong(r.host, t, c, events);
      RemoveEvents(r, d.events);
      RemoveGuards(r, d.guardKeys);
      RemoveTypes(r, d.types);
      RemoveWorkflows(r, d.workflows);
    }
  }

  lemma {:induction false} StoppedBeforeEvents(h: Host, p: Progress, events: seq<EventDef>)
    requires !p.ok
    ensures Events(h, p, events) == p
  {
    assert events[..0] == [];
    EventFailureIsFinal(h, p, events, 0);
  }

  // ----- what holds along a call

  /** All the guard keys of some workflows. */
  function AllGuardKeys(w: map<string, Workflow>, names: seq<string>): seq<string>
    requires forall n :: n in names ==> n in w
  {
    if names == [] then []
    else AllGuardKeys(w, names[..|names| - 1]) + GuardKeys(names[|names| - 1], w[names[|names| - 1]].guards)
  }

  function EventNames(events: seq<EventDef>): seq<string> {
    if events == [] then [] else EventNames(events[..|events| - 1]) + [events[|events| - 1].name]
  }

  /** The tables say of an event what its definition says. */
  predicate Holds(t: Tables, e: EventDef) {
    && e.name in t.events && e.name in t.sources && t.sources[e.name] == e.source
    && (e.schema.Some? ==> e.name in t.schemas && t.schemas[e.name] == e.schema.value)
  }

  /** What holds at every point of a call: where the tables can differ from before, and that nothing built in is registered. */
  ghost predicate Along(h: Host, before: Tables, p: Progress) {
    && Tracks(before, p.tables, p.done)
    && (forall n :: n in p.done.workflows ==> n !in h.builtIn)
    && (forall n :: n in p.done.events ==> n !in h.builtInEvents)
  }

  /** The tables differ from those before the call only where the call registered something. */
  ghost predicate Tracks(before: Tables, now: Tables, d: Done) {
    && now.hsms - Elements(d.workflows) == before.hsms - Elements(d.workflows)
    && now.phases - Elements(d.workflows) == before.phases - Elements(d.workflows)
    && now.types == before.types + Trimmed(d.types)
    && now.guards - Elements(d.guardKeys) == before.guards - Elements(d.guardKeys)
    && now.events == before.events + Elements(d.events) && before.events !! Elements(d.events)
    && now.sources - Elements(d.events) == before.sources - Elements(d.events)
    && now.schemas - Elements(d.events) == before.schemas - Elements(d.events)
  }

  /** The tables after the rollback of what a call registered. */
  function RolledBack(before: Tables, d: Done): Tables {
    Tables(before.hsms - Elements(d.workflows), before.phases - Elements(d.workflows),
           before.types + Trimmed(d.types) - Elements(d.types), before.guards - Elements(d.guardKeys),
           before.events, before.sources - Elements(d.events), before.schemas - Elements(d.events))
  }

  lemma {:induction false} ElementsWith(xs: seq<string>, x: string)
    ensures Elements(xs + [x]) == Elements(xs) + {x} && Trimmed(xs + [x]) == Trimmed(xs) + {Trim(x)}
  {
    assert forall y :: y in xs + [x] <==> y in xs || y == x;
  }

  lemma {:induction false} SameOutside<V>(now: map<string, V>, before: map<string, V>, keys: set<string>, key: string, v: V)
    requires now - keys == before - keys
    ensures now[key := v] - (keys + {key}) == before - (keys + {key})
    ensures now - (keys + {key}) == before - (keys + {key})
  {
    assert now[key := v] - (keys + {key}) == (now - keys) - {key};
    assert now - (keys + {key}) == (now - keys) - {key};
    assert before - (keys + {key}) == (before - keys) - {key};
  }

  lemma {:induction false} TracksWorkflow(before: Tables, now: Tables, d: Done, name: string, hsm: Hsm, phase: string)
    requires Tracks(before, now, d)
    ensures Tracks(before, now.(hsms := now.hsms[name := hsm], phases := now.phases[name := phase]),
                   d.(workflows := d.workflows + [name]))
  {
    ElementsWith(d.workflows, name);
    SameOutside(now.hsms, before.hsms, Elements(d.workflows), name, hsm);
    SameOutside(now.phases, before.phases, Elements(d.workflows), name, phase);
  }

  lemma {:induction false} TracksType(before: Tables, now: Tables, d: Done, name: string)
    requires Tracks(before, now, d)
    ensures Tracks(before, now.(types := now.types + {Trim(name)}), d.(types := d.types + [name]))
  {
    ElementsWith(d.types, name);
  }

  lemma {:induction false} TracksEvent(before: Tables, now: Tables, d: Done, e: EventDef)
    requires Tracks(before, now, d) && e.name !in now.events
    ensures Tracks(before, now.(events := now.events + {e.name}, sources := now.sources[e.name := e.source],
                                schemas := if e.schema.Some? then now.schemas[e.name := e.schema.value] else now.schemas),
                   d.(events := d.events + [e.name]))
  {
    ElementsWith(d.events, e.name);
    SameOutside(now.sources, before.sources, Elements(d.events), e.name, e.source);
    SameOutside(now.schemas, before.schemas, Elements(d.events), e.name, e.schema.GetOr(""));
  }

  lemma {:induction false} TracksGuards(before: Tables, now: Tables, d: Done, name: string, guards: seq<Guard>)
    requires Tracks(before, now, d)
    ensures Tracks(before, now.(guards := GuardsAfter(now.guards, name, guards)),
                   d.(guardKeys := d.guardKeys + GuardKeys(name, guards)))
  {
    if guards == [] {
      assert d.guardKeys + [] == d.guardKeys;
    } else {
      var init, last := guards[..|guards| - 1], guards[|guards| - 1];
      var key, keys := GuardKey(name, last.id), d.guardKeys + GuardKeys(name, init);
      TracksGuards(before, now, d, name, init);
      ElementsWith(keys, key);
      SameOutside(GuardsAfter(now.guards, name, init), before.guards, Elements(keys), key, last);
      assert keys + [key] == d.guardKeys + (GuardKeys(name, init) + [key]);
    }
  }

  lemma {:induction false} WorkflowAlong(h: Host, before: Tables, p: Progress, name: string, def: Workflow)
    requires Along(h, before, p)
    ensures Along(h, before, OneWorkflow(h, p.tables, p.done, name, def))
  {
    var q := OneWorkflow(h, p.tables, p.done, name, def);
    if name !in h.builtIn && h.convert(p.tables.hsms, name, def).Some? {
      TracksWorkflow(before, p.tables, p.done, name, q.tables.hsms[name], def.initialPhase);
      var t1 := p.tables.(hsms := q.tables.hsms, phases := q.tables.phases);
      var d1 := p.done.(workflows := p.done.workflows + [name]);
      if q.ok {
        TracksType(before, t1, d1, name);
        TracksGuards(before, t1.(types := t1.types + {Trim(name)}), d1.(types := d1.types + [name]), name, def.guards);
      }
    }
  }

  lemma {:induction false} WorkflowsAlong(h: Host, t: Tables, w: map<string, Workflow>, names: seq<string>)
    requires forall n :: n in names ==> n in w
    ensures Along(h, t, Workflows(h, t, w, names))
  {
    if names == [] {
      assert Elements([]) == {} && Trimmed([]) == {};
    } else {
      var last := names[|names| - 1];
      var p := Workflows(h, t, w, names[..|names| - 1]);
      WorkflowsAlong(h, t, w, names[..|names| - 1]);
      if p.ok { WorkflowAlong(h, t, p, last, w[last]); }
    }
  }

  lemma {:induction false} EventsAlong(h: Host, t: Tables, start: Progress, events: seq<EventDef>)
    requires Along(h, t, start)
    ensures Along(h, t, Events(h, start, events))
  {
    if events != [] {
      var n := |events| - 1;
      EventsAlong(h, t, start, events[..n]);
      var p := Events(h, start, events[..n]);
      if p.ok && OneEvent(h, p.tables, p.done, events[n]).ok { TracksEvent(t, p.tables, p.done, events[n]); }
    }
  }

  /** A call changes the tables only where it registers something, and registers nothing built in. */
  lemma {:induction false} AttemptAlong(h: Host, t: Tables, c: Config, events: seq<EventDef>)
    requires c.Valid()
    ensures Along(h, t, Attempt(h, t, c, events))
  {
    WorkflowsAlong(h, t, c.workflows, Sorted(c));
    EventsAlong(h, t, Workflows(h, t, c.workflows, Sorted(c)), events);
  }

  // ----- a call that succeeds

  /** The state machines after some workflows, each converted with those before it. */
  function HsmsAfter(h: Host, hsms: map<string, Hsm>, w: map<string, Workflow>, names: seq<string>): Option<map<string, Hsm>>
    requires forall n :: n in names ==> n in w
  {
    if names == [] then Some(hsms)
    else
      var last := names[|names| - 1];
      match HsmsAfter(h, hsms, w, names[..|names| - 1])
      case None => None
      case Some(before) =>
        match h.convert(before, last, w[last])
        case None => None
        case Some(hsm) => Some(before[last := hsm])
  }

  /** The guard table after the guards of some workflows. */
  function AllGuardsAfter(table: map<string, Guard>, w: map<string, Workflow>, names: seq<string>): map<string, Guard>
    requires forall n :: n in names ==> n in w
  {
    if names == [] then table
    else
      var last := names[|names| - 1];
      GuardsAfter(AllGuardsAfter(table, w, names[..|names| - 1]), last, w[last].guards)
  }

  lemma OneRegisters(h: Host, t: Tables, d: Done, name: string, def: Workflow)
    requires OneWorkflow(h, t, d, name, def).ok
    ensures var now := OneWorkflow(h, t, d, name, def).tables;
            && h.convert(t.hsms, name, def).Some? && now.hsms == t.hsms[name := h.convert(t.hsms, name, def).value]
            && now.phases == t.phases[name := def.initialPhase] && now.types == t.types + {Trim(name)}
            && now.guards == GuardsAfter(t.guards, name, def.guards) && now.events == t.events
  {
  }

  lemma {:induction false} WorkflowsRegister(h: Host, t: Tables, w: map<string, Workflow>, names: seq<string>)
    requires (forall n :: n in names ==> n in w) && Workflows(h, t, w, names).ok
    ensures var p := Workflows(h, t, w, names);
            && HsmsAfter(h, t.hsms, w, names) == Some(p.tables.hsms)
            && p.tables.types == t.types + Trimmed(names)
            && p.tables.guards == AllGuardsAfter(t.guards, w, names)
            && p.tables.events == t.events
  {
    if names == [] {
      assert Trimmed([]) == {};
    } else {
      var init, last := names[..|names| - 1], names[|names| - 1];
      var p := Workflows(h, t, w, init);
      WorkflowsRegister(h, t, w, init);
      OneRegisters(h, p.tables, p.done, last, w[last]);
      hide OneWorkflow;
      assert names == init + [last];
      ElementsWith(init, last);
    }
  }

  lemma {:induction false} PhasesRegister(h: Host, t: Tables, w: map<string, Workflow>, names: seq<string>)
    requires (forall n :: n in names ==> n in w) && Workflows(h, t, w, names).ok
    ensures var phases := Workflows(h, t, w, names).tables.phases;
            forall n :: n in names ==> n in phases && phases[n] == w[n].initialPhase
  {
    if names != [] {
      var init, last := names[..|names| - 1], names[|names| - 1];
      var p := Workflows(h, t, w, init);
      PhasesRegister(h, t, w, init);
      OneRegisters(h, p.tables, p.done, last, w[last]);
      hide OneWorkflow;
      assert forall n :: n in names <==> n in init || n == last;
    }
  }

  lemma {:induction false} EventsRegister(h: Host, start: Progress, events: seq<EventDef>)
    requires Events(h, start, events).ok
    ensures start.ok && forall i :: 0 <= i < |events| ==> Holds(Events(h, start, events).tables, events[i])
    ensures var t, s := Events(h, start, events).tables, start.tables;
            t == s.(events := t.events, sources := t.sources, schemas := t.schemas)
  {
    if events != [] {
      EventsRegister(h, start, events[..|events| - 1]);
      var p := Events(h, start, events[..|events| - 1]);
      assert forall i :: 0 <= i < |events| - 1 ==> events[i] == events[..|events| - 1][i] && Holds(p.tables, events[i]);
    }
  }

  /**
   * A call that succeeds registers everything: each workflow converted with those before it in the order, each phase, type
   * and guard under its name, and each event.
   */
  lemma {:induction false} SuccessRegistersAll(h: Host, t: Tables, c: Config, events: seq<EventDef>)
    requires c.Valid() && Attempt(h, t, c, events).ok
    ensures var now := After(h, t, c, events);
            && HsmsAfter(h, t.hsms, c.workflows, Sorted(c)) == Some(now.hsms)
            && (forall n :: n in c.workflows ==>
                  n in now.phases && now.phases[n] == c.workflows[n].initialPhase && Trim(n) in now.types)
            && now.guards == AllGuardsAfter(t.guards, c.workflows, Sorted(c))
            && forall i :: 0 <= i < |events| ==> Holds(now, events[i])
  {
    EventsRegister(h, Workflows(h, t, c.workflows, Sorted(c)), events);
    WorkflowsRegister(h, t, c.workflows, Sorted(c));
    PhasesRegister(h, t, c.workflows, Sorted(c));
  }

  // ----- a call that fails

  /** A call that fails leaves the tables before it, without the names that it had registered. */
  lemma {:induction false} FailureRollsBack(h: Host, t: Tables, c: Config, events: seq<EventDef>)
    requires c.Valid() && !Attempt(h, t, c, events).ok
    ensures After(h, t, c, events) == RolledBack(t, Attempt(h, t, c, events).done)
  {
    AttemptAlong(h, t, c, events);
  }

  /** One rollback restores the registries if and only if nothing it had registered replaced or renamed something older. */
  lemma {:induction false} RestoredIff(before: Tables, d: Done)
    ensures RolledBack(before, d) == before <==>
              && Elements(d.workflows) !! before.hsms.Keys && Elements(d.workflows) !! before.phases.Keys
              && Elements(d.types) !! before.types && Trimmed(d.types) <= before.types + Elements(d.types)
              && Elements(d.guardKeys) !! before.guards.Keys
              && Elements(d.events) !! before.sources.Keys && Elements(d.events) !! before.schemas.Keys
  {
    RemovalIsNeutral(before.hsms, Elements(d.workflows));
    RemovalIsNeutral(before.phases, Elements(d.workflows));
    RemovalIsNeutral(before.guards, Elements(d.guardKeys));
    RemovalIsNeutral(before.sources, Elements(d.events));
    RemovalIsNeutral(before.schemas, Elements(d.events));
  }

  lemma {:induction false} RemovalIsNeutral<V>(m: map<string, V>, keys: set<string>)
    ensures m - keys == m <==> keys !! m.Keys
  {
    if m - keys == m { assert (m - keys).Keys == m.Keys - keys; }
  }

  // ----- when a call that fails restores the registries

  /** The type list takes the name. */
  predicate Listable(builtIn: set<string>, name: string) {
    Kebab(Trim(name)) && Trim(name) !in builtIn
  }

  /** None of the first names stops a call. */
  predicate Reached(builtIn: set<string>, names: seq<string>, i: nat)
    requires i <= |names|
  {
    forall j :: 0 <= j < i ==> names[j] !in builtIn && Listable(builtIn, names[j])
  }

  /** None of the events stops a call that has these event names. */
  predicate Fresh(known: set<string>, events: seq<EventDef>) {
    && (forall i :: 0 <= i < |events| ==> events[i].name !in known)
    && forall i, j :: 0 <= i < j < |events| ==> events[i].name != events[j].name
  }

  predicate NewWorkflow(t: Tables, name: string) {
    name !in t.hsms && name !in t.phases
  }

  /** The type and the guards of a name are new, and its type is stored as it is given, or is there or goes away anyway. */
  predicate NewType(t: Tables, names: seq<string>, i: nat, guards: seq<Guard>)
    requires i < |names|
  {
    && names[i] !in t.types && (Trim(names[i]) in t.types || Trim(names[i]) in names[..i + 1])
    && forall k :: k in GuardKeys(names[i], guards) ==> k !in t.guards
  }

  predicate NewEvent(t: Tables, name: string) {
    name !in t.sources && name !in t.schemas
  }

  /** What a caller can check before the call: everything is new that the call can have registered when it fails. */
  predicate Restorable(builtIn: set<string>, builtInEvents: set<string>, t: Tables, c: Config, events: seq<EventDef>)
    requires c.Valid()
  {
    var s := Sorted(c);
    && (forall i :: 0 <= i < |s| && Reached(builtIn, s, i) && s[i] !in builtIn ==> NewAt(builtIn, t, c, events, s, i))
    && (Reached(builtIn, s, |s|) ==>
          forall j :: 0 <= j < |events| - 1 && Fresh(t.events + builtInEvents, events[..j + 1]) ==> NewEvent(t, events[j].name))
  }

  /** The part for one workflow. The last workflow of a call without events is rolled back only if its type is refused. */
  predicate NewAt(builtIn: set<string>, t: Tables, c: Config, events: seq<EventDef>, names: seq<string>, i: nat)
    requires i < |names| && forall n :: n in names ==> n in c.workflows
  {
    if !Listable(builtIn, names[i]) then NewWorkflow(t, names[i])
    else i + 1 < |names| || events != [] ==> NewWorkflow(t, names[i]) && NewType(t, names, i, c.workflows[names[i]].guards)
  }

  lemma OneWorkflowDone(h: Host, t: Tables, d: Done, name: string, def: Workflow)
    ensures var q := OneWorkflow(h, t, d, name, def);
            && q.tables.events == t.events
            && (q.ok ==> name !in h.builtIn && Listable(h.builtIn, name)
                         && q.done == Done(d.workflows + [name], d.types + [name],
                                           d.guardKeys + GuardKeys(name, def.guards), d.events))
            && (!q.ok ==> q.done == d || (name !in h.builtIn && !Listable(h.builtIn, name)
                                          && q.done == d.(workflows := d.workflows + [name])))
  {
  }

  /** What some workflows leave: `i` of them are registered, `m` of them with their types and guards. */
  predicate Left(b: set<string>, w: map<string, Workflow>, names: seq<string>, p: Progress, i: nat, m: nat)
    requires forall n :: n in names ==> n in w
  {
    && i <= |names| && (m == i || m + 1 == i) && Reached(b, names, m)
    && (m < i ==> names[m] !in b && !Listable(b, names[m]))
    && (p.ok <==> m == |names|)
    && p.done == Done(names[..i], names[..m], AllGuardKeys(w, names[..m]), [])
  }

  lemma {:induction false} WorkflowsDone(h: Host, t: Tables, w: map<string, Workflow>, names: seq<string>) returns (i: nat, m: nat)
    requires forall n :: n in names ==> n in w
    ensures Left(h.builtIn, w, names, Workflows(h, t, w, names), i, m) && Workflows(h, t, w, names).tables.events == t.events
  {
    if names == [] {
      i, m := 0, 0;
    } else {
      var init, last := names[..|names| - 1], names[|names| - 1];
      var p, q := Workflows(h, t, w, init), Workflows(h, t, w, names);
      assert names == init + [last];
      i, m := WorkflowsDone(h, t, w, init);
      if p.ok {
        OneWorkflowDone(h, p.tables, p.done, last, w[last]);
        assert q == OneWorkflow(h, p.tables, p.done, last, w[last]);
        hide OneWorkflow, Left, Listable;
        i, m := LastLeaves(h.builtIn, w, init, last, p, q, i, m);
      } else {
        LastIsNotReached(h.builtIn, w, init, last, p, i, m);
      }
    }
  }

  lemma ReachedGrows(b: set<string>, names: seq<string>, last: string)
    requires Reached(b, names, |names|)
    ensures Reached(b, names + [last], |names|)
    ensures last !in b && Listable(b, last) ==> Reached(b, names + [last], |names| + 1)
  {
  }

  lemma {:induction false} LastLeaves(b: set<string>, w: map<string, Workflow>, init: seq<string>, last: string, p: Progress,
                                      q: Progress, i: nat, m: nat) returns (j: nat, n: nat)
    requires (forall n :: n in init + [last] ==> n in w) && Left(b, w, init, p, i, m) && p.ok
    requires q.ok ==> last !in b && Listable(b, last)
                      && q.done == Done(p.done.workflows + [last], p.done.types + [last],
                                        p.done.guardKeys + GuardKeys(last, w[last].guards), p.done.events)
    requires !q.ok ==> q.done == p.done
                       || (last !in b && !Listable(b, last) && q.done == p.done.(workflows := p.done.workflows + [last]))
    ensures Left(b, w, init + [last], q, j, n)
  {
    var names, k := init + [last], |init|;
    assert m == k && i == k && init[..k] == init == names[..k] && names[..k + 1] == names;
    assert p.done == Done(init, init, AllGuardKeys(w, init), []);
    assert AllGuardKeys(w, names) == AllGuardKeys(w, init) + GuardKeys(last, w[last].guards);
    assert Reached(b, names, k) && (q.ok ==> Reached(b, names, k + 1)) by { ReachedGrows(b, init, last); }
    hide AllGuardKeys, GuardKeys, Listable, Reached;
    if q.ok { j, n := k + 1, k + 1; } else if q.done == p.done { j, n := k, k; } else { j, n := k + 1, k; }
  }

  lemma {:induction false} LastIsNotReached(b: set<string>, w: map<string, Workflow>, init: seq<string>, last: string, p: Progress,
                                            i: nat, m: nat)
    requires (forall n :: n in init + [last] ==> n in w) && Left(b, w, init, p, i, m) && !p.ok
    ensures Left(b, w, init + [last], p, i, m)
  {
    var names := init + [last];
    assert init[..m] == names[..m] && init[..i] == names[..i];
    hide AllGuardKeys, Listable;
  }

  lemma OneEventDone(h: Host, t: Tables, d: Done, e: EventDef)
    ensures var q := OneEvent(h, t, d, e);
            && (q.ok ==> e.name !in t.events + h.builtInEvents)
            && q.tables.events == (if q.ok then t.events + {e.name} else t.events)
            && q.done == if q.ok then d.(events := d.events + [e.name]) else d
  {
  }

  lemma FreshWith(known: set<string>, events: seq<EventDef>, e: EventDef)
    requires Fresh(known, events) && e.name !in known + Elements(EventNames(events))
    ensures Fresh(known, events + [e])
  {
    EventNamesAre(events);
    assert forall i :: 0 <= i < |events| ==> EventNames(events)[i] in EventNames(events);
  }

  /** What some events leave: the first `j` of them are registered. */
  lemma {:induction false} EventsDone(h: Host, start: Progress, events: seq<EventDef>) returns (j: nat)
    requires start.done.events == []
    ensures j <= |events| && Fresh(start.tables.events + h.builtInEvents, events[..j]) && (j > 0 ==> start.ok)
    ensures var p := Events(h, start, events);
            && (p.ok <==> start.ok && j == |events|)
            && p.tables.events == start.tables.events + Elements(EventNames(events[..j]))
            && p.done == start.done.(events := EventNames(events[..j]))
  {
    if events == [] {
      j := 0;
    } else {
      var n := |events| - 1;
      var init, last := events[..n], events[n];
      j := EventsDone(h, start, init);
      assert init[..j] == events[..j];
      var p := Events(h, start, init);
      if p.ok {
        OneEventDone(h, p.tables, p.done, last);
        EventNamesWith(init, last);
        assert Events(h, start, events) == OneEvent(h, p.tables, p.done, last) && events[..n + 1] == events == init + [last];
        assert init[..j] == init && p.done.events == EventNames(init);
        hide OneEvent, Events, EventNames, Fresh, Elements;
        if OneEvent(h, p.tables, p.done, last).ok {
          FreshWith(start.tables.events + h.builtInEvents, init, last);
          j := n + 1;
        }
      }
    }
  }

  lemma {:induction false} EventNamesWith(events: seq<EventDef>, e: EventDef)
    ensures EventNames(events + [e]) == EventNames(events) + [e.name]
    ensures Elements(EventNames(events + [e])) == Elements(EventNames(events)) + {e.name}
  {
    assert (events + [e])[..|events|] == events;
    ElementsWith(EventNames(events), e.name);
  }

  lemma {:induction false} EventNamesAre(events: seq<EventDef>)
    ensures |EventNames(events)| == |events| && forall i :: 0 <= i < |events| ==> EventNames(events)[i] == events[i].name
  {
    if events != [] { EventNamesAre(events[..|events| - 1]); }
  }

  lemma {:induction false} KeysOfSome(w: map<string, Workflow>, names: seq<string>, key: string) returns (i: nat)
    requires (forall n :: n in names ==> n in w) && key in AllGuardKeys(w, names)
    ensures i < |names| && key in GuardKeys(names[i], w[names[i]].guards)
  {
    var n := |names| - 1;
    if key in AllGuardKeys(w, names[..n]) { i := KeysOfSome(w, names[..n], key); } else { i := n; }
  }

  /** With new names at every point where the call can fail, a failing call restores the registries. */
  lemma {:induction false} RestorableIsRestored(h: Host, t: Tables, c: Config, events: seq<EventDef>)
    requires c.Valid() && Restorable(h.builtIn, h.builtInEvents, t, c, events) && !Attempt(h, t, c, events).ok
    ensures After(h, t, c, events) == t
  {
    var s, w := Sorted(c), c.workflows;
    var i, m := WorkflowsDone(h, t, w, s);
    var j := EventsDone(h, Workflows(h, t, w, s), events);
    var d := Attempt(h, t, c, events).done;
    FailureRollsBack(h, t, c, events);
    hide Attempt, Workflows, Events, After, RolledBack, Reached, NewAt, NewType, Trim, Fresh;
    if m == |s| { assert events != []; }
    NamesAreNew(h.builtIn, h.builtInEvents, t, c, events, i, m);
    EventsAreNew(h.builtIn, h.builtInEvents, t, c, events, j);
    RestoredIff(t, d);
  }

  lemma {:induction false} NamesAreNew(b: set<string>, be: set<string>, t: Tables, c: Config, events: seq<EventDef>, i: nat, m: nat)
    requires c.Valid() && Restorable(b, be, t, c, events)
    requires i <= |Sorted(c)| && (m == i || m + 1 == i) && Reached(b, Sorted(c), m) && (m == |Sorted(c)| ==> events != [])
    requires m < i ==> Sorted(c)[m] !in b && !Listable(b, Sorted(c)[m])
    ensures var s := Sorted(c);
            && Elements(s[..i]) !! t.hsms.Keys && Elements(s[..i]) !! t.phases.Keys
            && Elements(s[..m]) !! t.types && Trimmed(s[..m]) <= t.types + Elements(s[..m])
            && Elements(AllGuardKeys(c.workflows, s[..m])) !! t.guards.Keys
  {
    var s, w := Sorted(c), c.workflows;
    forall q | 0 <= q < i
      ensures NewWorkflow(t, s[q]) && (q < m ==> NewType(t, s, q, w[s[q]].guards))
    {
      assert Reached(b, s, q) && NewAt(b, t, c, events, s, q);
    }
    hide Restorable, NewAt, Reached, Sorted;
    assert Elements(s[..i]) !! t.hsms.Keys && Elements(s[..i]) !! t.phases.Keys by {
      forall q | 0 <= q < i ensures s[q] !in t.hsms && s[q] !in t.phases { assert NewWorkflow(t, s[q]); }
    }
    TypesAreNew(t, w, s, m);
  }

  lemma {:induction false} TypesAreNew(t: Tables, w: map<string, Workflow>, names: seq<string>, m: nat)
    requires (forall n :: n in names ==> n in w) && m <= |names|
    requires forall q :: 0 <= q < m ==> NewType(t, names, q, w[names[q]].guards)
    ensures var some := names[..m];
            && Elements(some) !! t.types && Trimmed(some) <= t.types + Elements(some)
            && Elements(AllGuardKeys(w, some)) !! t.guards.Keys
  {
    var some := names[..m];
    hide Trim, GuardKeys;
    forall q | 0 <= q < m ensures some[q] == names[q] && Trim(some[q]) in t.types + Elements(some) && some[q] !in t.types {
      assert NewType(t, names, q, w[names[q]].guards) && names[..q + 1] <= some;
    }
    forall k | k in AllGuardKeys(w, some) ensures k !in t.guards {
      var q := KeysOfSome(w, some, k);
      assert NewType(t, names, q, w[names[q]].guards);
    }
  }

  lemma {:induction false} EventsAreNew(b: set<string>, be: set<string>, t: Tables, c: Config, events: seq<EventDef>, j: nat)
    requires c.Valid() && Restorable(b, be, t, c, events) && j <= |events| && Fresh(t.events + be, events[..j])
    requires j > 0 ==> j < |events| && Reached(b, Sorted(c), |Sorted(c)|)
    ensures Elements(EventNames(events[..j])) !! t.sources.Keys && Elements(EventNames(events[..j])) !! t.schemas.Keys
  {
    EventNamesAre(events[..j]);
    forall q | 0 <= q < j ensures NewEvent(t, events[q].name) {
      assert events[..j][..q + 1] == events[..q + 1];
    }
  }

  /** A host that accepts everything but some workflow and event names. */
  function Refusing(builtIn: set<string>, builtInEvents: set<string>, names: set<string>, events: set<string>): Host {
    Host(builtIn, builtInEvents, (name: string) => name !in events,
         (hsms: map<string, Hsm>, name: string, def: Workflow) => if name in names then None else Some(""))
  }

  lemma OneWorkflowRuns(h: Host, t: Tables, d: Done, name: string, def: Workflow)
    requires name !in h.builtIn && Listable(h.builtIn, name) && h.convert(t.hsms, name, def).Some?
    ensures var q := OneWorkflow(h, t, d, name, def);
            && q.ok && q.tables.events == t.events
            && q.done == Done(d.workflows + [name], d.types + [name], d.guardKeys + GuardKeys(name, def.guards), d.events)
  {
  }

  lemma {:induction false} WorkflowsRun(h: Host, refused: set<string>, t: Tables, w: map<string, Workflow>, names: seq<string>)
    requires (forall n :: n in names ==> n in w && n !in refused) && Reached(h.builtIn, names, |names|)
    requires forall hsms, n, def :: n !in refused ==> h.convert(hsms, n, def).Some?
    ensures var p := Workflows(h, t, w, names);
            p.ok && p.tables.events == t.events && p.done == Done(names, names, AllGuardKeys(w, names), [])
  {
    if names != [] {
      var n := |names| - 1;
      var init, last := names[..n], names[n];
      assert last !in h.builtIn && Listable(h.builtIn, last) && forall j :: 0 <= j < n ==> init[j] == names[j];
      assert init + [last] == names && Reached(h.builtIn, init, n);
      hide Listable, OneWorkflow, Reached, GuardKeys;
      WorkflowsRun(h, refused, t, w, init);
      var p := Workflows(h, t, w, init);
      OneWorkflowRuns(h, p.tables, p.done, last, w[last]);
    }
  }

  lemma {:induction false} EventsRun(h: Host, start: Progress, events: seq<EventDef>)
    requires start.ok && start.done.events == [] && Fresh(start.tables.events + h.builtInEvents, events)
    requires forall i :: 0 <= i < |events| ==> h.eventName(events[i].name)
    ensures var p := Events(h, start, events);
            && p.ok && p.tables.events == start.tables.events + Elements(EventNames(events))
            && p.done == start.done.(events := EventNames(events))
  {
    if events != [] {
      var n := |events| - 1;
      EventsRun(h, start, events[..n]);
      EventNamesAre(events[..n]);
      ElementsWith(EventNames(events[..n]), events[n].name);
    }
  }

  /** A call whose workflows fail early does nothing after that. */
  lemma {:induction false} StopsAt(h: Host, t: Tables, c: Config, events: seq<EventDef>, n: nat)
    requires c.Valid() && n <= |Sorted(c)| && !Workflows(h, t, c.workflows, Sorted(c)[..n]).ok
    ensures Attempt(h, t, c, events) == Workflows(h, t, c.workflows, Sorted(c)[..n])
  {
    FailureIsFinal(h, t, c.workflows, Sorted(c), n);
    StoppedBeforeEvents(h, Workflows(h, t, c.workflows, Sorted(c)), events);
  }

  /** The type list refuses the last name: its workflow is registered, its type is not. */
  lemma {:induction false} LastIsUnlisted(h: Host, t: Tables, w: map<string, Workflow>, names: seq<string>, last: string)
    requires (forall n :: n in names + [last] ==> n in w) && h == Refusing(h.builtIn, h.builtInEvents, {}, {})
    requires Reached(h.builtIn, names, |names|) && last !in h.builtIn && !Listable(h.builtIn, last)
    ensures var p := Workflows(h, t, w, names + [last]);
            !p.ok && p.done == Done(names + [last], names, AllGuardKeys(w, names), [])
  {
    hide Kebab, Trim;
    assert (names + [last])[..|names|] == names;
    WorkflowsRun(h, {}, t, w, names);
  }

  /** The host refuses the last name. */
  lemma {:induction false} LastIsRefused(h: Host, t: Tables, w: map<string, Workflow>, names: seq<string>, last: string)
    requires (forall n :: n in names + [last] ==> n in w) && h == Refusing(h.builtIn, h.builtInEvents, {last}, {})
    requires Reached(h.builtIn, names, |names|) && last !in names
    ensures var p := Workflows(h, t, w, names + [last]);
            !p.ok && p.done == Done(names, names, AllGuardKeys(w, names), [])
  {
    hide Kebab, Trim;
    assert (names + [last])[..|names|] == names;
    WorkflowsRun(h, {last}, t, w, names);
  }

  /** The host stops at the event after the first `j`. */
  lemma {:induction false} EventIsRefused(h: Host, start: Progress, events: seq<EventDef>, j: nat)
    requires start.ok && start.done.events == [] && j < |events| && Fresh(start.tables.events + h.builtInEvents, events[..j])
    requires h == Refusing(h.builtIn, h.builtInEvents, {}, {events[j].name} - Elements(EventNames(events[..j])))
    ensures var p := Events(h, start, events);
            !p.ok && p.done == start.done.(events := EventNames(events[..j]))
  {
    var some, more := events[..j], events[..j + 1];
    EventNamesAre(some);
    forall i | 0 <= i < j ensures h.eventName(some[i].name) { assert EventNames(some)[i] in Elements(EventNames(some)); }
    EventsRun(h, start, some);
    assert more[..j] == some && more[j] == events[j];
    EventFailureIsFinal(h, start, events, j + 1);
  }

  /** A host under which a call fails with the first `i + 1` workflows registered, and with the type of the last if it can be. */
  function NameStopper(b: set<string>, be: set<string>, names: seq<string>, i: nat, events: seq<EventDef>): Host
    requires i < |names|
  {
    if !Listable(b, names[i]) || (i + 1 == |names| && events == []) then Refusing(b, be, {}, {})
    else if i + 1 < |names| then Refusing(b, be, {names[i + 1]}, {})
    else Refusing(b, be, {}, {events[0].name})
  }

  /** The workflows stop where `NameStopper` says. */
  lemma {:induction false} WorkflowsStop(h: Host, t: Tables, w: map<string, Workflow>, names: seq<string>, i: nat,
                                         events: seq<EventDef>)
    requires Distinct(names) && (forall n :: n in names ==> n in w) && i < |names|
    requires h == NameStopper(h.builtIn, h.builtInEvents, names, i, events)
    requires Reached(h.builtIn, names, i) && names[i] !in h.builtIn && (Listable(h.builtIn, names[i]) ==> i + 1 < |names|)
    ensures var n := if Listable(h.builtIn, names[i]) then i + 2 else i + 1;
            var p, m := Workflows(h, t, w, names[..n]), if Listable(h.builtIn, names[i]) then i + 1 else i;
            !p.ok && p.done == Done(names[..i + 1], names[..m], AllGuardKeys(w, names[..m]), [])
  {
    hide Kebab, Trim, Workflows, AllGuardKeys;
    if Listable(h.builtIn, names[i]) {
      assert names[..i + 1] + [names[i + 1]] == names[..i + 2];
      LastIsRefused(h, t, w, names[..i + 1], names[i + 1]);
    } else {
      assert names[..i] + [names[i]] == names[..i + 1];
      LastIsUnlisted(h, t, w, names[..i], names[i]);
    }
  }

  /** A host under which a call fails with all workflows and the first `j` events registered. */
  function EventStopper(b: set<string>, be: set<string>, events: seq<EventDef>, j: nat): Host
    requires j < |events|
  {
    Refusing(b, be, {}, {events[j].name} - Elements(EventNames(events[..j])))
  }

  lemma {:induction false} StopsAfterEvents(b: set<string>, be: set<string>, t: Tables, c: Config, events: seq<EventDef>, j: nat)
    requires c.Valid() && Reached(b, Sorted(c), |Sorted(c)|) && j < |events| && Fresh(t.events + be, events[..j])
    ensures var p := Attempt(EventStopper(b, be, events, j), t, c, events);
            !p.ok && p.done == Done(Sorted(c), Sorted(c), AllGuardKeys(c.workflows, Sorted(c)), EventNames(events[..j]))
  {
    hide Kebab, Trim, Workflows, Events;
    var h := EventStopper(b, be, events, j);
    WorkflowsRun(h, {}, t, c.workflows, Sorted(c));
    EventIsRefused(h, Workflows(h, t, c.workflows, Sorted(c)), events, j);
  }

  lemma {:induction false} StopsAfterName(b: set<string>, be: set<string>, t: Tables, c: Config, events: seq<EventDef>, i: nat)
    requires c.Valid() && i < |Sorted(c)| && Reached(b, Sorted(c), i) && Sorted(c)[i] !in b
    requires Listable(b, Sorted(c)[i]) ==> i + 1 < |Sorted(c)| || events != []
    ensures var s, m := Sorted(c), if Listable(b, Sorted(c)[i]) then i + 1 else i;
            var p := Attempt(NameStopper(b, be, s, i, events), t, c, events);
            !p.ok && p.done == Done(s[..i + 1], s[..m], AllGuardKeys(c.workflows, s[..m]), [])
  {
    hide Kebab, Trim, Attempt, AllGuardKeys;
    if !Listable(b, Sorted(c)[i]) || i + 1 < |Sorted(c)| {
      StopsInside(b, be, t, c, events, i);
    } else {
      StopsAtEnd(b, be, t, c, events);
    }
  }

  lemma {:induction false} StopsInside(b: set<string>, be: set<string>, t: Tables, c: Config, events: seq<EventDef>, i: nat)
    requires c.Valid() && i < |Sorted(c)| && Reached(b, Sorted(c), i) && Sorted(c)[i] !in b
    requires Listable(b, Sorted(c)[i]) ==> i + 1 < |Sorted(c)|
    ensures var s, m := Sorted(c), if Listable(b, Sorted(c)[i]) then i + 1 else i;
            var p := Attempt(NameStopper(b, be, s, i, events), t, c, events);
            !p.ok && p.done == Done(s[..i + 1], s[..m], AllGuardKeys(c.workflows, s[..m]), [])
  {
    var s := Sorted(c);
    var h := NameStopper(b, be, s, i, events);
    OrderIsParentFirstIffAcyclic(c);
    assert Distinct(s) && h.builtIn == b && h.builtInEvents == be;
    hide *;
    WorkflowsStop(h, t, c.workflows, s, i, events);
    StopsAt(h, t, c, events, if Listable(b, s[i]) then i + 2 else i + 1);
  }

  lemma {:induction false} StopsAtEnd(b: set<string>, be: set<string>, t: Tables, c: Config, events: seq<EventDef>)
    requires c.Valid() && Sorted(c) != [] && Reached(b, Sorted(c), |Sorted(c)|) && events != []
    ensures var s := Sorted(c);
            var p := Attempt(NameStopper(b, be, s, |s| - 1, events), t, c, events);
            !p.ok && p.done == Done(s[..|s|], s[..|s|], AllGuardKeys(c.workflows, s[..|s|]), [])
  {
    var s := Sorted(c);
    assert s[..|s|] == s && events[..0] == [] && {events[0].name} - Elements([]) == {events[0].name};
    assert NameStopper(b, be, s, |s| - 1, events) == EventStopper(b, be, events, 0);
    assert Fresh(t.events + be, events[..0]) && EventNames(events[..0]) == [];
    hide *;
    StopsAfterEvents(b, be, t, c, events, 0);
  }

  /**
   * For every call: with the built-in names fixed, whatever else makes the call fail and wherever, it restores the registries,
   * if and only if everything is new that it can have registered by then.
   */
  lemma {:induction false} RestoredIffRestorable(b: set<string>, be: set<string>, t: Tables, c: Config, events: seq<EventDef>)
    requires c.Valid()
    ensures (forall h: Host :: h.builtIn == b && h.builtInEvents == be && !Attempt(h, t, c, events).ok ==> After(h, t, c, events) == t)
       <==> Restorable(b, be, t, c, events)
  {
    var s := Sorted(c);
    hide Kebab, Trim, Attempt, After, Fresh, Listable, NewAt;
    if Restorable(b, be, t, c, events) {
      forall h: Host | h.builtIn == b && h.builtInEvents == be && !Attempt(h, t, c, events).ok ensures After(h, t, c, events) == t {
        RestorableIsRestored(h, t, c, events);
      }
    }
    if forall h: Host :: h.builtIn == b && h.builtInEvents == be && !Attempt(h, t, c, events).ok ==> After(h, t, c, events) == t {
      forall i | 0 <= i < |s| && Reached(b, s, i) && s[i] !in b ensures NewAt(b, t, c, events, s, i) {
        NamesMustBeNew(b, be, t, c, events, i);
      }
      forall j | 0 <= j < |events| - 1 && Reached(b, s, |s|) && Fresh(t.events + be, events[..j + 1])
        ensures NewEvent(t, events[j].name)
      {
        StopsAfterEvents(b, be, t, c, events, j + 1);
        EventWasNew(EventStopper(b, be, events, j + 1), t, c, events, j);
      }
    }
  }

  lemma {:induction false} NamesMustBeNew(b: set<string>, be: set<string>, t: Tables, c: Config, events: seq<EventDef>, i: nat)
    requires c.Valid() && i < |Sorted(c)| && Reached(b, Sorted(c), i) && Sorted(c)[i] !in b
    requires forall h: Host :: h.builtIn == b && h.builtInEvents == be && !Attempt(h, t, c, events).ok ==> After(h, t, c, events) == t
    ensures NewAt(b, t, c, events, Sorted(c), i)
  {
    if Listable(b, Sorted(c)[i]) ==> i + 1 < |Sorted(c)| || events != [] {
      StopsAfterName(b, be, t, c, events, i);
      NamesWereNew(NameStopper(b, be, Sorted(c), i, events), t, c, events, i);
    }
  }

  lemma {:induction false} EventWasNew(h: Host, t: Tables, c: Config, events: seq<EventDef>, j: nat)
    requires c.Valid() && !Attempt(h, t, c, events).ok && After(h, t, c, events) == t && j < |events|
    requires Attempt(h, t, c, events).done.events == EventNames(events[..j + 1])
    ensures NewEvent(t, events[j].name)
  {
    var names := EventNames(events[..j + 1]);
    FailureRollsBack(h, t, c, events);
    RestoredIff(t, Attempt(h, t, c, events).done);
    EventNamesAre(events[..j + 1]);
    assert names[j] in Elements(names);
  }

  /** A restored call that registered the first `i + 1` workflows found them new. */
  lemma {:induction false} NamesWereNew(h: Host, t: Tables, c: Config, events: seq<EventDef>, i: nat)
    requires c.Valid() && !Attempt(h, t, c, events).ok && After(h, t, c, events) == t && i < |Sorted(c)|
    requires var s, m := Sorted(c), if Listable(h.builtIn, Sorted(c)[i]) then i + 1 else i;
             Attempt(h, t, c, events).done == Done(s[..i + 1], s[..m], AllGuardKeys(c.workflows, s[..m]), [])
    ensures NewAt(h.builtIn, t, c, events, Sorted(c), i)
  {
    var s, w, d := Sorted(c), c.workflows, Attempt(h, t, c, events).done;
    FailureRollsBack(h, t, c, events);
    RestoredIff(t, d);
    assert s[..i + 1][i] == s[i] && s[i] in Elements(d.workflows);
    if Listable(h.builtIn, s[i]) {
      assert s[..i + 1][..i] == s[..i] && s[i] in Elements(d.types) && Trim(s[i]) in Trimmed(d.types);
      forall k | k in GuardKeys(s[i], w[s[i]].guards) ensures k !in t.guards { assert k in Elements(d.guardKeys); }
    }
  }

  /** A plain form of the test: all names of the config are new, and each type is stored as it is given or is there already. */
  predicate NewNames(t: Tables, c: Config, events: seq<EventDef>) {
    && (forall n :: n in c.workflows ==> NewWorkflow(t, n) && n !in t.types && (Trim(n) == n || Trim(n) in t.types))
    && (forall n, k :: n in c.workflows && k in GuardKeys(n, c.workflows[n].guards) ==> k !in t.guards)
    && forall i :: 0 <= i < |events| ==> NewEvent(t, events[i].name)
  }

  /** New names are enough, with any event or none after them. */
  lemma {:induction false} NewNamesAreRestorable(b: set<string>, be: set<string>, t: Tables, c: Config, events: seq<EventDef>, n: nat)
    requires c.Valid() && |events| - 1 <= n <= |events| && NewNames(t, c, events[..n])
    ensures Restorable(b, be, t, c, events)
  {
    var s := Sorted(c);
    forall i | 0 <= i < |s| ensures NewAt(b, t, c, events, s, i) {
      assert s[i] in c.workflows && s[..i + 1][i] == s[i];
    }
    forall j | 0 <= j < |events| - 1 ensures NewEvent(t, events[j].name) { assert events[..n][j] == events[j]; }
  }

  /** With new names, whatever makes a call fail and wherever it does, all registries are as before the call. */
  lemma {:induction false} NewNamesAreRestored(h: Host, before: Tables, c: Config, events: seq<EventDef>)
    requires c.Valid() && NewNames(before, c, events) && !Attempt(h, before, c, events).ok
    ensures After(h, before, c, events) == before
  {
    assert events[..|events|] == events;
    NewNamesAreRestorable(h.builtIn, h.builtInEvents, before, c, events, |events|);
    RestorableIsRestored(h, before, c, events);
  }

  /**
   * When each name can be listed, none is the trimmed form of another and no event stops the call, new names are also needed:
   * then a call with one more event restores the registries under every host if and only if its names are new.
   */
  lemma {:induction false} RestoredIffNewNames(before: Tables, c: Config, events: seq<EventDef>, last: EventDef)
    requires c.Valid() && Fresh(before.events, events)
    requires forall n :: n in c.workflows ==> Kebab(Trim(n)) && (Trim(n) in c.workflows ==> Trim(n) == n)
    ensures (forall h: Host :: !Attempt(h, before, c, events + [last]).ok ==> After(h, before, c, events + [last]) == before)
       <==> NewNames(before, c, events)
  {
    var s, all := Sorted(c), events + [last];
    assert all[..|events|] == events;
    if NewNames(before, c, events) {
      forall h: Host | !Attempt(h, before, c, all).ok ensures After(h, before, c, all) == before {
        NewNamesAreRestorable(h.builtIn, h.builtInEvents, before, c, all, |events|);
        RestorableIsRestored(h, before, c, all);
      }
    }
    if forall h: Host :: !Attempt(h, before, c, all).ok ==> After(h, before, c, all) == before {
      RestoredIffRestorable({}, {}, before, c, all);
      NewNamesAreNeeded(before, c, events, last);
    }
  }

  lemma {:induction false} NewNamesAreNeeded(before: Tables, c: Config, events: seq<EventDef>, last: EventDef)
    requires c.Valid() && Fresh(before.events, events)
    requires forall n :: n in c.workflows ==> Kebab(Trim(n)) && (Trim(n) in c.workflows ==> Trim(n) == n)
    requires Restorable({}, {}, before, c, events + [last])
    ensures NewNames(before, c, events)
  {
    var s, all := Sorted(c), events + [last];
    hide Kebab, Trim;
    assert forall i :: 0 <= i <= |s| ==> Reached({}, s, i);
    forall n | n in c.workflows
      ensures NewWorkflow(before, n) && n !in before.types && (Trim(n) == n || Trim(n) in before.types)
      ensures forall k :: k in GuardKeys(n, c.workflows[n].guards) ==> k !in before.guards
    {
      var i :| 0 <= i < |s| && s[i] == n;
      assert NewAt({}, before, c, all, s, i) && Listable({}, n);
      assert Trim(n) in s[..i + 1] ==> Trim(n) in c.workflows;
    }
    forall j | 0 <= j < |events| ensures NewEvent(before, events[j].name) {
      assert all[..j + 1] == events[..j + 1] && all[j] == events[j] && Fresh(before.events + {}, all[..j + 1]);
    }
  }

  /** Guards of two accepted workflow names never share a key: an accepted name holds no colon. */
  lemma {:induction false} KeysAreApart(n: string, m: string, g: string, h: string)
    requires Kebab(Trim(n)) && Kebab(Trim(m)) && GuardKey(n, g) == GuardKey(m, h)
    ensures n == m && g == h
  {
    NoColon(n);
    NoColon(m);
    if |n| < |m| { ShorterName(n, m, g, h); }
    if |m| < |n| { ShorterName(m, n, h, g); }
    var key := GuardKey(n, g);
    assert key[..|n|] == n && key[..|m|] == m && key[|n| + 1..] == g && key[|m| + 1..] == h;
  }

  lemma {:induction false} ShorterName(n: string, m: string, g: string, h: string)
    requires |n| < |m| && ':' !in m
    ensures GuardKey(n, g) != GuardKey(m, h)
  {
    assert GuardKey(n, g)[|n|] == ':' && GuardKey(m, h)[|n|] == m[|n|];
  }

  lemma {:induction false} NoColon(n: string)
    requires Kebab(Trim(n))
    ensures ':' !in n
  {
    if ':' in n { TrimKeeps(n, ':'); }
  }

  // ----- two failing cases, as runs of the call

  /** A host that converts every definition and knows no event name, so that any event makes a call fail. */
  const PLAIN_HOST := Host({}, {}, (name: string) => false, (hsms: map<string, Hsm>, name: string, def: Workflow) => Some(""))

  const NO_TABLES := Tables(map[], map[], {}, map[], {}, map[], map[])

  const BAD_EVENT := EventDef("bad", "auto", None)

  /** A config of one workflow that extends nothing. */
  function One(name: string, guards: seq<Guard>): (c: Config)
    ensures c.Valid()
  {
    Config(map[name := Workflow("", "start", guards, "")], [name])
  }

  /** The tables after a call of one workflow that succeeds. */
  function Added(t: Tables, name: string, guards: seq<Guard>): Tables {
    t.(hsms := t.hsms[name := ""], phases := t.phases[name := "start"], types := t.types + {Trim(name)},
       guards := GuardsAfter(t.guards, name, guards))
  }

  lemma {:induction false} OneCall(t: Tables, name: string, guards: seq<Guard>)
    requires Kebab(Trim(name))
    ensures After(PLAIN_HOST, t, One(name, guards), []) == Added(t, name, guards)
    ensures After(PLAIN_HOST, t, One(name, guards), [BAD_EVENT])
         == Without(Added(t, name, guards), Done([name], [name], GuardKeys(name, guards), []))
  {
    var c := One(name, guards);
    var w := c.workflows;
    assert [name][..0] == [] && VisitAll(w, []) == Order({}, []);
    assert Sorted(c) == [name];
    assert Workflows(PLAIN_HOST, t, w, [name]) == OneWorkflow(PLAIN_HOST, t, NOTHING, name, w[name]);
    assert [] + [name] == [name] && [] + GuardKeys(name, guards) == GuardKeys(name, guards);
    assert [BAD_EVENT][..0] == [];
  }

  /**
   * A guard of an earlier call is lost. Register `a` with a guard; register `a` again with another guard and fail, which
   * takes the workflow away and leaves the first guard; then fail with the first config, whose workflow is new again.
   */
  lemma {:induction false} EarlierGuardIsLost(g: Guard, other: Guard) returns (first: Tables, second: Tables, third: Tables)
    requires g.id != other.id
    ensures first == After(PLAIN_HOST, NO_TABLES, One("a", [g]), [])
    ensures second == After(PLAIN_HOST, first, One("a", [other]), [BAD_EVENT])
    ensures third == After(PLAIN_HOST, second, One("a", [g]), [BAD_EVENT])
    ensures "a" !in second.hsms && "a" !in second.phases && "a" !in second.types
    ensures second.guards == map[GuardKey("a", g.id) := g] && third == second.(guards := map[])
  {
    assert NO_TABLES.guards == map[] && NO_TABLES.hsms == map[] && NO_TABLES.phases == map[] && NO_TABLES.types == {};
    hide *;
    TrimmedName();
    var key := GuardKey("a", g.id);
    OtherKey("a", g, other);
    first := GoodCall(NO_TABLES, "a", g);
    second := BadCall(first, "a", other);
    assert second.guards == map[key := g];
    third := BadCall(second, "a", g);
    assert third.hsms == second.hsms && third.phases == second.phases && third.types == second.types;
  }

  lemma {:induction false} OtherKey(name: string, g: Guard, other: Guard)
    requires Kebab(Trim(name)) && g.id != other.id
    ensures GuardKey(name, g.id) != GuardKey(name, other.id)
  {
    if GuardKey(name, g.id) == GuardKey(name, other.id) { KeysAreApart(name, name, g.id, other.id); }
  }

  lemma {:induction false} GoodCall(t: Tables, name: string, g: Guard) returns (now: Tables)
    requires Trim(name) == name && Kebab(name)
    ensures now == After(PLAIN_HOST, t, One(name, [g]), [])
    ensures now == t.(hsms := t.hsms[name := ""], phases := t.phases[name := "start"], types := t.types + {name},
                      guards := t.guards[GuardKey(name, g.id) := g])
  {
    hide *;
    OneCall(t, name, [g]);
    AddedAndTaken(t, name, g);
    now := After(PLAIN_HOST, t, One(name, [g]), []);
  }

  lemma {:induction false} BadCall(t: Tables, name: string, g: Guard) returns (now: Tables)
    requires Trim(name) == name && Kebab(name)
    ensures now == After(PLAIN_HOST, t, One(name, [g]), [BAD_EVENT])
    ensures now == t.(hsms := t.hsms - {name}, phases := t.phases - {name}, types := t.types - {name},
                      guards := t.guards - {GuardKey(name, g.id)})
  {
    hide *;
    OneCall(t, name, [g]);
    AddedAndTaken(t, name, g);
    now := After(PLAIN_HOST, t, One(name, [g]), [BAD_EVENT]);
  }

  lemma {:induction false} AddedAndTaken(t: Tables, name: string, g: Guard)
    requires Trim(name) == name
    ensures var key := GuardKey(name, g.id);
            && Added(t, name, [g]) == t.(hsms := t.hsms[name := ""], phases := t.phases[name := "start"],
                                         types := t.types + {name}, guards := t.guards[key := g])
            && Without(Added(t, name, [g]), Done([name], [name], GuardKeys(name, [g]), []))
            == t.(hsms := t.hsms - {name}, phases := t.phases - {name}, types := t.types - {name}, guards := t.guards - {key})
  {
    var key := GuardKey(name, g.id);
    OneGuard(t.guards, name, g);
    assert Elements([name]) == {name} && Elements([]) == {};
    assert t.guards[key := g] - {key} == t.guards - {key};
    assert t.hsms[name := ""] - {name} == t.hsms - {name} && t.phases[name := "start"] - {name} == t.phases - {name};
    assert t.types + {name} - {name} == t.types - {name};
  }

  lemma {:induction false} OneGuard(table: map<string, Guard>, name: string, g: Guard)
    ensures GuardsAfter(table, name, [g]) == table[GuardKey(name, g.id) := g]
    ensures GuardKeys(name, [g]) == [GuardKey(name, g.id)] && Elements(GuardKeys(name, [g])) == {GuardKey(name, g.id)}
  {
    assert [g][..0] == [] && [] + [GuardKey(name, g.id)] == [GuardKey(name, g.id)];
  }

  lemma {:induction false} TrimmedName()
    ensures Trim("a") == "a" && Kebab("a") && Trim(" a") == "a"
  {
    assert TrimStart(" a") == "a" && TrimEnd("a") == "a";
  }

  /** A type name is left behind: a failing call for the new workflow name `a` with a space before it leaves the type `a`. */
  lemma {:induction false} TrimmedTypeStays()
    ensures After(PLAIN_HOST, NO_TABLES, One(" a", []), [BAD_EVENT]) == NO_TABLES.(types := {"a"})
  {
    TrimmedName();
    OneCall(NO_TABLES, " a", []);
    assert Elements([" a"]) == {" a"} && " a" != "a" by { assert |" a"| != |"a"|; }
    assert Elements([]) == {};
  }

  /** In an accepted config every parent in the config is registered before its child is converted. */
  lemma {:induction false} ParentIsConvertedFirst(h: Host, before: Tables, c: Config, i: nat)
    requires c.Valid() && Acyclic(c.workflows)
    requires var sorted := VisitAll(c.workflows, c.names).sorted;
             i < |sorted| && (forall n :: n in sorted ==> n in c.workflows)
             && HsmsAfter(h, before.hsms, c.workflows, sorted[..i]).Some?
             && c.workflows[sorted[i]].parent != "" && c.workflows[sorted[i]].parent in c.workflows
    ensures var sorted := VisitAll(c.workflows, c.names).sorted;
            c.workflows[sorted[i]].parent in HsmsAfter(h, before.hsms, c.workflows, sorted[..i]).value
  {
    var sorted := VisitAll(c.workflows, c.names).sorted;
    OrderIsParentFirstIffAcyclic(c);
    assert ParentBefore(c.workflows, sorted, i);
    HsmsHave(h, before.hsms, c.workflows, sorted[..i]);
  }

  lemma {:induction false} HsmsHave(h: Host, hsms: map<string, Hsm>, w: map<string, Workflow>, names: seq<string>)
    requires (forall n :: n in names ==> n in w) && HsmsAfter(h, hsms, w, names).Some?
    ensures forall n :: n in names || n in hsms ==> n in HsmsAfter(h, hsms, w, names).value
  {
    if names != [] {
      HsmsHave(h, hsms, w, names[..|names| - 1]);
      assert forall n :: n in names ==> n in names[..|names| - 1] || n == names[|names| - 1];
    }
  }
}
