/**
 * The effective invariant catalog: the floors of the entries, the overrides that a config asks for, and the
 * pipeline that loads, skips reserved names, merges, clamps and drops. The projection after it is not modelled.
 */
module Catalog {
  import opened Texts
  import opened Wrappers

  datatype Level = Blocking | Advisory

  /** The severity of an entry: a default, and the two maps that rank above it. */
  datatype Severity = Severity(base: Level, byPhase: map<string, Level>, byWorkflow: map<string, Level>)

  datatype Class = Substrate | Sdlc | Authoring | User

  datatype Tier = DevTier | SdlcTier | UserTier

  /** `rawFloor` is the `override-floor` field of the entry, and `rest` all that the merge does not read. */
  datatype Entry = Entry(id: string, integrity: Option<Class>, rawFloor: Option<string>, severity: Option<Severity>,
                         tier: Option<Tier>, rest: string)

  datatype Floor = Open | AdvisoryFloor | Disable | Immutable

  datatype Override = Override(severity: Option<Level>, enabled: Option<bool>)

  /** The overrides of a config by id, with the order of the ids. */
  datatype Overrides = Overrides(byId: map<string, Override>, ids: seq<string>)

  /** The level of an entry in a context: the phase map, then the workflow map, then the default. */
  function LevelIn(e: Entry, phase: string, workflow: string): Level {
    match e.severity
    case None => Advisory
    case Some(s) =>
      if phase in s.byPhase then s.byPhase[phase]
      else if workflow in s.byWorkflow then s.byWorkflow[workflow]
      else s.base
  }

  function ResolveFloor(e: Entry): Floor {
    if e.rawFloor == Some("advisory") then AdvisoryFloor
    else if e.rawFloor == Some("disable") then Disable
    else
      match e.integrity
      case Some(Substrate) => Immutable
      case Some(Sdlc) => AdvisoryFloor
      case Some(Authoring) => AdvisoryFloor
      case Some(User) => Open
      case None => Open
  }

  function Flat(level: Level): Option<Severity> {
    Some(Severity(level, map[], map[]))
  }

  /** The entry after its override. */
  function Clamped(e: Entry, o: Override): Entry {
    var floor := ResolveFloor(e);
    var tuned :=
      if o.severity.None? || floor == Immutable || (o.severity == Some(Blocking) && floor == AdvisoryFloor) then e
      else e.(severity := Flat(o.severity.value));
    if o.enabled == Some(false) && floor == AdvisoryFloor then tuned.(severity := Flat(Advisory)) else tuned
  }

  datatype Warning =
    | NotLoaded(path: string, cause: Cause)
    | ReservedName(path: string, id: string)
    | UnknownOverride(id: string)
    | SeverityImmutable(id: string)
    | SeverityNotRaised(id: string)
    | DisableImmutable(id: string)
    | DisableClamped(id: string)

  datatype Cause = NotFound | LoadFailed

  function EntryWarnings(e: Entry, o: Override): seq<Warning> {
    var floor := ResolveFloor(e);
    (if o.severity.None? then []
     else if floor == Immutable then [SeverityImmutable(e.id)]
     else if o.severity == Some(Blocking) && floor == AdvisoryFloor then [SeverityNotRaised(e.id)]
     else []) +
    if o.enabled != Some(false) then []
    else if floor == Immutable then [DisableImmutable(e.id)]
    else if floor == AdvisoryFloor then [DisableClamped(e.id)]
    else []
  }

  function ClampedBy(os: Overrides, e: Entry): Entry {
    if e.id in os.byId then Clamped(e, os.byId[e.id]) else e
  }

  function ClampAll(os: Overrides, entries: seq<Entry>): seq<Entry> {
    seq(|entries|, i requires 0 <= i < |entries| => ClampedBy(os, entries[i]))
  }

  function UnknownIds(entries: seq<Entry>, ids: seq<string>): seq<Warning> {
    if ids == [] then []
    else
      var last := ids[|ids| - 1];
      UnknownIds(entries, ids[..|ids| - 1]) +
      if exists i :: 0 <= i < |entries| && entries[i].id == last then [] else [UnknownOverride(last)]
  }

  function ClampWarnings(os: Overrides, entries: seq<Entry>): seq<Warning> {
    if entries == [] then []
    else
      var last := entries[|entries| - 1];
      ClampWarnings(os, entries[..|entries| - 1]) + if last.id in os.byId then EntryWarnings(last, os.byId[last.id]) else []
  }

  method ApplyOverride(entry: Entry, o: Override) returns (result: Entry, warnings: seq<Warning>)
    ensures result == Clamped(entry, o) && warnings == EntryWarnings(entry, o)
  {
    var floor := ResolveFloor(entry);
    result, warnings := entry, [];
    if o.severity.Some? {
      if floor == Immutable {
        warnings := warnings + [SeverityImmutable(entry.id)];
      } else if o.severity.value == Blocking && floor == AdvisoryFloor {
        warnings := warnings + [SeverityNotRaised(entry.id)];
      } else {
        result := result.(severity := Flat(o.severity.value));
      }
    }
    if o.enabled == Some(false) {
      if floor == Immutable {
        warnings := warnings + [DisableImmutable(entry.id)];
      } else if floor == AdvisoryFloor {
        warnings := warnings + [DisableClamped(entry.id)];
        result := result.(severity := Flat(Advisory));
      }
    }
  }

  method ApplyOverrides(merged: seq<Entry>, os: Overrides) returns (entries: seq<Entry>, warnings: seq<Warning>)
    ensures entries == ClampAll(os, merged)
    ensures warnings == UnknownIds(merged, os.ids) + ClampWarnings(os, merged)
  {
    warnings := [];
    for i := 0 to |os.ids|
      invariant warnings == UnknownIds(merged, os.ids[..i])
    {
      assert os.ids[..i + 1][..i] == os.ids[..i];
      if !exists k :: 0 <= k < |merged| && merged[k].id == os.ids[i] {
        warnings := warnings + [UnknownOverride(os.ids[i])];
      }
    }
    assert os.ids[..|os.ids|] == os.ids;
    entries := [];
    for i := 0 to |merged|
      invariant entries == ClampAll(os, merged[..i])
      invariant warnings == UnknownIds(merged, os.ids) + ClampWarnings(os, merged[..i])
    {
      assert merged[..i + 1][..i] == merged[..i];
      var entry := merged[i];
      if entry.id !in os.byId {
        entries := entries + [entry];
      } else {
        var result, more := ApplyOverride(entry, os.byId[entry.id]);
        entries := entries + [result];
        warnings := warnings + more;
      }
    }
    assert merged[..|merged|] == merged;
  }

  // ----- what a clamp does

  /** A clamp changes nothing but the severity, so the floor stays. */
  lemma ClampKeeps(e: Entry, o: Override)
    ensures Clamped(e, o) == e.(severity := Clamped(e, o).severity)
    ensures ResolveFloor(Clamped(e, o)) == ResolveFloor(e)
  {
  }

  /** Its own floor field gives an entry no floor, so its class decides. */
  predicate ByClass(e: Entry) {
    e.rawFloor != Some("advisory") && e.rawFloor != Some("disable")
  }

  /** A config can only lower such an entry: its own field says `advisory`, or its class is sdlc or authoring. */
  predicate OnlyLowered(e: Entry) {
    e.rawFloor == Some("advisory") || (ByClass(e) && (e.integrity == Some(Sdlc) || e.integrity == Some(Authoring)))
  }

  /** A config can set and remove such an entry: its own field says `disable`, or its class is user or missing. */
  predicate Free(e: Entry) {
    e.rawFloor == Some("disable") || (ByClass(e) && (e.integrity == Some(User) || e.integrity.None?))
  }

  /** No override changes a substrate entry without a floor of its own, and each one that tries gives its warning. */
  lemma SubstrateIsImmutable(e: Entry, o: Override)
    requires ByClass(e) && e.integrity == Some(Substrate)
    ensures Clamped(e, o) == e
    ensures EntryWarnings(e, o) == (if o.severity.Some? then [SeverityImmutable(e.id)] else []) +
                                   (if o.enabled == Some(false) then [DisableImmutable(e.id)] else [])
  {
  }

  /**
   * On an advisory floor an override leaves the entry as it is or makes it advisory in every context, so no context gets a
   * higher level; a refused raise and a clamped removal give their warnings.
   */
  lemma {:induction false} FloorsHold(e: Entry, o: Override, phase: string, workflow: string)
    requires OnlyLowered(e)
    ensures Clamped(e, o) == e || Clamped(e, o) == e.(severity := Some(Severity(Advisory, map[], map[])))
    ensures LevelIn(Clamped(e, o), phase, workflow) == Blocking ==> LevelIn(e, phase, workflow) == Blocking
    ensures EntryWarnings(e, o) == (if o.severity == Some(Blocking) then [SeverityNotRaised(e.id)] else []) +
                                   (if o.enabled == Some(false) then [DisableClamped(e.id)] else [])
  {
    if o.severity.Some? {
      match o.severity.value
      case Blocking =>
      case Advisory => assert Clamped(e, o).severity == Flat(Advisory);
    }
  }

  /** A free entry takes what the config asks for, without a warning. */
  lemma FreeTakesOverrides(e: Entry, o: Override)
    requires Free(e)
    ensures EntryWarnings(e, o) == []
    ensures Clamped(e, o) == if o.severity.Some? then e.(severity := Some(Severity(o.severity.value, map[], map[]))) else e
  {
  }

  /** A refused removal makes the entry advisory in every context, whatever maps it had. */
  lemma RefusedRemovalIsAdvisory(e: Entry, o: Override, phase: string, workflow: string)
    requires OnlyLowered(e) && o.enabled == Some(false)
    ensures LevelIn(Clamped(e, o), phase, workflow) == Advisory
  {
  }

  /** A severity holds in every context exactly when the entry is free, when it only lowers one, or when it held already. */
  lemma {:induction false} SeverityIsGrantedIff(e: Entry, level: Level)
    ensures (forall phase, workflow :: LevelIn(Clamped(e, Override(Some(level), None)), phase, workflow) == level) <==>
              || Free(e) || (OnlyLowered(e) && level == Advisory)
              || (forall phase, workflow :: LevelIn(e, phase, workflow) == level)
  {
    var c := Clamped(e, Override(Some(level), None));
    if c == e {
      if forall phase, workflow :: LevelIn(c, phase, workflow) == level {
        forall phase, workflow ensures LevelIn(e, phase, workflow) == level {
          assert LevelIn(c, phase, workflow) == level;
        }
      }
    }
    if Free(e) || (OnlyLowered(e) && level == Advisory) {
      forall phase, workflow ensures LevelIn(c, phase, workflow) == level {
      }
    }
  }

  /** Clamping keeps the ids and the order, and clamping twice is clamping once. */
  lemma {:induction false} ClampAllIsIdempotent(os: Overrides, entries: seq<Entry>)
    ensures |ClampAll(os, entries)| == |entries|
    ensures forall i :: 0 <= i < |entries| ==> ClampAll(os, entries)[i] == entries[i].(severity := ClampAll(os, entries)[i].severity)
    ensures ClampAll(os, ClampAll(os, entries)) == ClampAll(os, entries)
  {
    var once := ClampAll(os, entries);
    forall i | 0 <= i < |entries| ensures ClampedBy(os, once[i]) == once[i] && once[i] == entries[i].(severity := once[i].severity) {
      if entries[i].id in os.byId {
        ClampKeeps(entries[i], os.byId[entries[i].id]);
      }
    }
  }

  // ----- the merge

  predicate IsReservedUserId(id: string) {
    Starts(id, "INV-") || Starts(id, "SDLC-")
  }

  function InTier(e: Entry, tier: Tier): Entry {
    match tier
    case DevTier => e.(tier := Some(DevTier))
    case SdlcTier => e.(integrity := Some(Sdlc), tier := Some(SdlcTier))
    case UserTier => e.(integrity := Some(User), tier := Some(UserTier))
  }

  function AllInTier(entries: seq<Entry>, tier: Tier): seq<Entry> {
    seq(|entries|, i requires 0 <= i < |entries| => InTier(entries[i], tier))
  }

  function Merged(dev: seq<Entry>, sdlc: seq<Entry>, user: seq<Entry>): seq<Entry> {
    AllInTier(dev, DevTier) + AllInTier(sdlc, SdlcTier) + AllInTier(user, UserTier)
  }

  /** `mergeCatalogs`; no value stands for the reserved-namespace error. */
  method MergeCatalogs(dev: seq<Entry>, sdlc: seq<Entry>, user: seq<Entry>) returns (merged: Option<seq<Entry>>)
    ensures merged == if exists i :: 0 <= i < |user| && IsReservedUserId(user[i].id) then None else Some(Merged(dev, sdlc, user))
  {
    for i := 0 to |user|
      invariant forall k :: 0 <= k < i ==> !IsReservedUserId(user[k].id)
    {
      if IsReservedUserId(user[i].id) { return None; }
    }
    return Some(Merged(dev, sdlc, user));
  }

  // ----- the pipeline

  datatype Load = Missing | Broken | Loaded(entries: seq<Entry>)

  /** A registered source: its tier is dev or user. */
  datatype Source = Source(path: string, dev: bool, load: Load)

  datatype Unresolved = Unresolved(path: string, dev: bool, cause: Cause)

  datatype Effective = Effective(entries: seq<Entry>, warnings: seq<Warning>, unresolved: seq<Unresolved>)

  function Unreserved(entries: seq<Entry>): seq<Entry> {
    if entries == [] then []
    else
      var last := entries[|entries| - 1];
      Unreserved(entries[..|entries| - 1]) + if IsReservedUserId(last.id) then [] else [last]
  }

  function ReservedNames(path: string, entries: seq<Entry>): seq<Warning> {
    if entries == [] then []
    else
      var last := entries[|entries| - 1];
      ReservedNames(path, entries[..|entries| - 1]) + if IsReservedUserId(last.id) then [ReservedName(path, last.id)] else []
  }

  function DevEntries(sources: seq<Source>): seq<Entry> {
    if sources == [] then []
    else
      var last := sources[|sources| - 1];
      DevEntries(sources[..|sources| - 1]) + if last.dev && last.load.Loaded? then last.load.entries else []
  }

  function UserEntries(sources: seq<Source>): seq<Entry> {
    if sources == [] then []
    else
      var last := sources[|sources| - 1];
      UserEntries(sources[..|sources| - 1]) + if !last.dev && last.load.Loaded? then Unreserved(last.load.entries) else []
  }

  function SourceWarnings(s: Source): seq<Warning> {
    match s.load
    case Missing => [NotLoaded(s.path, NotFound)]
    case Broken => [NotLoaded(s.path, LoadFailed)]
    case Loaded(entries) => if s.dev then [] else ReservedNames(s.path, entries)
  }

  function LoadWarnings(sources: seq<Source>): seq<Warning> {
    if sources == [] then [] else LoadWarnings(sources[..|sources| - 1]) + SourceWarnings(sources[|sources| - 1])
  }

  function UnresolvedSources(sources: seq<Source>): seq<Unresolved> {
    if sources == [] then []
    else
      var last := sources[|sources| - 1];
      UnresolvedSources(sources[..|sources| - 1]) +
      match last.load
      case Missing => [Unresolved(last.path, last.dev, NotFound)]
      case Broken => [Unresolved(last.path, last.dev, LoadFailed)]
      case Loaded(_) => []
  }

  /** The filter after the clamp: it drops a disabled entry on a disable or open floor. */
  predicate Survives(os: Overrides, e: Entry) {
    !(e.id in os.byId && os.byId[e.id].enabled == Some(false) && (ResolveFloor(e) == Disable || ResolveFloor(e) == Open))
  }

  function Survivors(os: Overrides, entries: seq<Entry>): seq<Entry> {
    if entries == [] then []
    else
      var last := entries[|entries| - 1];
      Survivors(os, entries[..|entries| - 1]) + if Survives(os, last) then [last] else []
  }

  lemma {:induction false} UnreservedStay(entries: seq<Entry>)
    ensures forall e :: e in Unreserved(entries) <==> e in entries && !IsReservedUserId(e.id)
  {
    if entries != [] {
      var init := entries[..|entries| - 1];
      UnreservedStay(init);
      assert forall e :: e in entries <==> e in init || e == entries[|entries| - 1];
    }
  }

  lemma {:induction false} UsersAreUnreserved(sources: seq<Source>)
    ensures forall e :: e in UserEntries(sources) ==> !IsReservedUserId(e.id)
  {
    if sources != [] {
      UsersAreUnreserved(sources[..|sources| - 1]);
      var last := sources[|sources| - 1];
      if last.load.Loaded? { UnreservedStay(last.load.entries); }
    }
  }

  /** One source of the loop, with the entries, the warnings and the unresolved sources so far. */
  method TakeSource(s: Source, devIn: seq<Entry>, userIn: seq<Entry>, warningsIn: seq<Warning>, unresolvedIn: seq<Unresolved>)
    returns (dev: seq<Entry>, user: seq<Entry>, warnings: seq<Warning>, unresolved: seq<Unresolved>)
    ensures dev == devIn + if s.dev && s.load.Loaded? then s.load.entries else []
    ensures user == userIn + if !s.dev && s.load.Loaded? then Unreserved(s.load.entries) else []
    ensures warnings == warningsIn + SourceWarnings(s)
    ensures unresolved == unresolvedIn + match s.load
                                         case Missing => [Unresolved(s.path, s.dev, NotFound)]
                                         case Broken => [Unresolved(s.path, s.dev, LoadFailed)]
                                         case Loaded(_) => []
  {
    dev, user, warnings, unresolved := devIn, userIn, warningsIn, unresolvedIn;
    if s.load.Missing? {
      warnings := warnings + [NotLoaded(s.path, NotFound)];
      unresolved := unresolved + [Unresolved(s.path, s.dev, NotFound)];
      return;
    }
    if s.load.Broken? {
      warnings := warnings + [NotLoaded(s.path, LoadFailed)];
      unresolved := unresolved + [Unresolved(s.path, s.dev, LoadFailed)];
      return;
    }
    var loaded := s.load.entries;
    if s.dev {
      dev := dev + loaded;
      return;
    }
    for i := 0 to |loaded|
      invariant user == userIn + Unreserved(loaded[..i])
      invariant warnings == warningsIn + ReservedNames(s.path, loaded[..i])
    {
      assert loaded[..i + 1][..i] == loaded[..i];
      if IsReservedUserId(loaded[i].id) {
        warnings := warnings + [ReservedName(s.path, loaded[i].id)];
        continue;
      }
      user := user + [loaded[i]];
    }
    assert loaded[..|loaded|] == loaded;
  }

  /** The loop over the registered sources. */
  method LoadSources(sources: seq<Source>)
    returns (dev: seq<Entry>, user: seq<Entry>, warnings: seq<Warning>, unresolved: seq<Unresolved>)
    ensures dev == DevEntries(sources) && user == UserEntries(sources)
    ensures warnings == LoadWarnings(sources) && unresolved == UnresolvedSources(sources)
  {
    dev, user, warnings, unresolved := [], [], [], [];
    for i := 0 to |sources|
      invariant dev == DevEntries(sources[..i]) && user == UserEntries(sources[..i])
      invariant warnings == LoadWarnings(sources[..i]) && unresolved == UnresolvedSources(sources[..i])
    {
      assert sources[..i + 1][..i] == sources[..i];
      dev, user, warnings, unresolved := TakeSource(sources[i], dev, user, warnings, unresolved);
    }
    assert sources[..|sources|] == sources;
  }

  /** The filter over the clamped entries. */
  method DropDisabled(clamped: seq<Entry>, os: Overrides) returns (survived: seq<Entry>)
    ensures survived == Survivors(os, clamped)
  {
    survived := [];
    for i := 0 to |clamped|
      invariant survived == Survivors(os, clamped[..i])
    {
      assert clamped[..i + 1][..i] == clamped[..i];
      if Survives(os, clamped[i]) { survived := survived + [clamped[i]]; }
    }
    assert clamped[..|clamped|] == clamped;
  }

  /** The effective catalog of a config before its projection. */
  function EffectiveCatalog(sources: seq<Source>, sdlc: seq<Entry>, os: Overrides): Effective {
    var merged := Merged(DevEntries(sources), sdlc, UserEntries(sources));
    Effective(Survivors(os, ClampAll(os, merged)),
              LoadWarnings(sources) + (UnknownIds(merged, os.ids) + ClampWarnings(os, merged)),
              UnresolvedSources(sources))
  }

  /** No source and no config makes the merge throw. */
  method ResolveEffectiveCatalog(sources: seq<Source>, sdlc: seq<Entry>, os: Overrides) returns (r: Effective)
    ensures r == EffectiveCatalog(sources, sdlc, os)
  {
    var dev, user, warnings, unresolved := LoadSources(sources);
    UsersAreUnreserved(sources);
    assert forall i :: 0 <= i < |user| ==> user[i] in UserEntries(sources);
    var merged := MergeCatalogs(dev, sdlc, user);
    hide IsReservedUserId;
    assert merged.Some?;
    var clamped, more := ApplyOverrides(merged.value, os);
    var survived := DropDisabled(clamped, os);
    r := Effective(survived, warnings + more, unresolved);
  }

  lemma {:induction false} SurvivorsAre(os: Overrides, entries: seq<Entry>)
    ensures forall e :: e in Survivors(os, entries) <==> e in entries && Survives(os, e)
  {
    if entries != [] {
      var init := entries[..|entries| - 1];
      SurvivorsAre(os, init);
      assert forall e :: e in entries <==> e in init || e == entries[|entries| - 1];
    }
  }

  predicate IsDisabled(os: Overrides, e: Entry) {
    e.id in os.byId && os.byId[e.id].enabled == Some(false)
  }

  /**
   * What a config can take away from a layer, by the floor field of the entry and then by its class: the layer gives the class
   * of an sdlc and of a user entry.
   */
  lemma {:induction false} RemovedIff(os: Overrides, e: Entry, tier: Tier)
    ensures Survives(os, ClampedBy(os, InTier(e, tier))) <==>
              || !IsDisabled(os, e) || e.rawFloor == Some("advisory")
              || (e.rawFloor != Some("disable") &&
                    match tier
                    case SdlcTier => true
                    case UserTier => false
                    case DevTier => e.integrity == Some(Substrate) || e.integrity == Some(Sdlc) || e.integrity == Some(Authoring))
  {
    var t := InTier(e, tier);
    if e.id in os.byId { ClampKeeps(t, os.byId[e.id]); }
  }

  /** A source of this kind that loaded gives the entry. */
  predicate Gives(s: Source, dev: bool, e: Entry) {
    s.dev == dev && s.load.Loaded? && e in s.load.entries
  }

  predicate SomeGives(sources: seq<Source>, dev: bool, e: Entry) {
    exists i :: 0 <= i < |sources| && Gives(sources[i], dev, e)
  }

  lemma {:induction false} SomeGivesStep(sources: seq<Source>, dev: bool, e: Entry)
    requires sources != []
    ensures SomeGives(sources, dev, e) <==> SomeGives(sources[..|sources| - 1], dev, e) || Gives(sources[|sources| - 1], dev, e)
  {
    var init := sources[..|sources| - 1];
    if i :| 0 <= i < |init| && Gives(init[i], dev, e) { assert Gives(sources[i], dev, e); }
    if i :| 0 <= i < |sources| && Gives(sources[i], dev, e) && !Gives(sources[|sources| - 1], dev, e) { assert init[i] == sources[i]; }
  }

  lemma {:induction false} DevEntriesAre(sources: seq<Source>, e: Entry)
    ensures e in DevEntries(sources) <==> SomeGives(sources, true, e)
  {
    if sources != [] {
      SomeGivesStep(sources, true, e);
      DevEntriesAre(sources[..|sources| - 1], e);
    }
  }

  /** The user layer is every entry of a user source whose id starts with neither `INV-` nor `SDLC-`. */
  lemma {:induction false} UserEntriesAre(sources: seq<Source>, e: Entry)
    ensures e in UserEntries(sources) <==> SomeGives(sources, false, e) && !("INV-" <= e.id) && !("SDLC-" <= e.id)
  {
    if sources != [] {
      SomeGivesStep(sources, false, e);
      UserEntriesAre(sources[..|sources| - 1], e);
      var last := sources[|sources| - 1];
      if last.load.Loaded? { UnreservedStay(last.load.entries); }
    }
  }

  lemma {:induction false} WarningsAre(os: Overrides, entries: seq<Entry>, i: nat)
    requires i < |entries| && entries[i].id in os.byId
    ensures forall x :: x in EntryWarnings(entries[i], os.byId[entries[i].id]) ==> x in ClampWarnings(os, entries)
  {
    if i < |entries| - 1 { WarningsAre(os, entries[..|entries| - 1], i); }
  }

  /** What becomes of one entry of the merged layers. */
  lemma {:induction false} MergedEntryFate(sources: seq<Source>, sdlc: seq<Entry>, os: Overrides, i: nat)
    requires i < |Merged(DevEntries(sources), sdlc, UserEntries(sources))|
    ensures var r, e := EffectiveCatalog(sources, sdlc, os), Merged(DevEntries(sources), sdlc, UserEntries(sources))[i];
            && (Survives(os, ClampedBy(os, e)) ==> ClampedBy(os, e) in r.entries)
            && (e.id in os.byId ==> forall x :: x in EntryWarnings(e, os.byId[e.id]) ==> x in r.warnings)
  {
    var merged := Merged(DevEntries(sources), sdlc, UserEntries(sources));
    assert ClampAll(os, merged)[i] == ClampedBy(os, merged[i]);
    SurvivorsAre(os, ClampAll(os, merged));
    if merged[i].id in os.byId { WarningsAre(os, merged, i); }
  }

  lemma {:induction false} DevEntryIsMerged(sources: seq<Source>, sdlc: seq<Entry>, e: Entry) returns (i: nat)
    requires SomeGives(sources, true, e)
    ensures i < |Merged(DevEntries(sources), sdlc, UserEntries(sources))|
    ensures Merged(DevEntries(sources), sdlc, UserEntries(sources))[i] == e.(tier := Some(DevTier))
  {
    DevEntriesAre(sources, e);
    var dev := DevEntries(sources);
    assert e in dev;
    i :| 0 <= i < |dev| && dev[i] == e;
    assert AllInTier(dev, DevTier)[i] == InTier(e, DevTier);
  }

  /**
   * A substrate entry of a dev source, with no floor of its own, is in the effective catalog of every config as it was loaded, and
   * every override of its severity or its presence is answered with a warning.
   */
  lemma {:induction false} SubstrateStays(sources: seq<Source>, sdlc: seq<Entry>, os: Overrides, e: Entry)
    requires SomeGives(sources, true, e)
    requires ByClass(e) && e.integrity == Some(Substrate)
    ensures var r := EffectiveCatalog(sources, sdlc, os);
            && e.(tier := Some(DevTier)) in r.entries
            && (e.id in os.byId && os.byId[e.id].severity.Some? ==> SeverityImmutable(e.id) in r.warnings)
            && (IsDisabled(os, e) ==> DisableImmutable(e.id) in r.warnings)
  {
    var i := DevEntryIsMerged(sources, sdlc, e);
    var t := e.(tier := Some(DevTier));
    MergedEntryFate(sources, sdlc, os, i);
    RemovedIff(os, e, DevTier);
    if e.id in os.byId { SubstrateIsImmutable(t, os.byId[e.id]); }
  }

  /** A dev entry that a config can only lower stays, as it was or advisory in every context. */
  lemma {:induction false} OnlyLoweredStays(sources: seq<Source>, sdlc: seq<Entry>, os: Overrides, e: Entry)
    requires SomeGives(sources, true, e)
    requires OnlyLowered(e)
    ensures var r, t := EffectiveCatalog(sources, sdlc, os), e.(tier := Some(DevTier));
            && (t in r.entries || t.(severity := Some(Severity(Advisory, map[], map[]))) in r.entries)
            && (e.id in os.byId && os.byId[e.id].severity == Some(Blocking) ==> SeverityNotRaised(e.id) in r.warnings)
            && (IsDisabled(os, e) ==> DisableClamped(e.id) in r.warnings)
  {
    var i := DevEntryIsMerged(sources, sdlc, e);
    var t := e.(tier := Some(DevTier));
    MergedEntryFate(sources, sdlc, os, i);
    RemovedIff(os, e, DevTier);
    if e.id in os.byId { FloorsHold(t, os.byId[e.id], "", ""); }
  }

  /** A free entry of the merged layers goes exactly when the config disables it, if no other entry has its id. */
  lemma {:induction false} FreeGoesIff(sources: seq<Source>, sdlc: seq<Entry>, os: Overrides, e: Entry)
    requires e in Merged(DevEntries(sources), sdlc, UserEntries(sources)) && Free(e)
    requires forall x :: x in Merged(DevEntries(sources), sdlc, UserEntries(sources)) && x.id == e.id ==> x == e
    ensures (forall x :: x in EffectiveCatalog(sources, sdlc, os).entries ==> x.id != e.id) <==> IsDisabled(os, e)
  {
    var merged := Merged(DevEntries(sources), sdlc, UserEntries(sources));
    var i :| 0 <= i < |merged| && merged[i] == e;
    MergedEntryFate(sources, sdlc, os, i);
    if e.id in os.byId { ClampKeeps(e, os.byId[e.id]); }
    assert Survives(os, ClampedBy(os, e)) <==> !IsDisabled(os, e);
    var clamped := ClampAll(os, merged);
    SurvivorsAre(os, clamped);
    hide Clamped, ClampedBy, Survives, Survivors, ClampAll, Merged, ResolveFloor, Free, IsDisabled;
    forall x | x in clamped && x.id == e.id ensures x == ClampedBy(os, e) {
      OnlyClampOf(os, merged, e, x);
    }
    ClampKeepsId(os, e);
  }

  lemma ClampKeepsId(os: Overrides, e: Entry)
    ensures ClampedBy(os, e).id == e.id
  {
  }

  lemma {:induction false} OnlyClampOf(os: Overrides, entries: seq<Entry>, e: Entry, x: Entry)
    requires forall y :: y in entries && y.id == e.id ==> y == e
    requires x in ClampAll(os, entries) && x.id == e.id
    ensures x == ClampedBy(os, e)
  {
    var k :| 0 <= k < |entries| && ClampAll(os, entries)[k] == x;
    ClampKeepsId(os, entries[k]);
    assert entries[k] in entries;
  }

  /** The merged layers, in order: dev entries keep their class, and the layer gives sdlc and user entries theirs. */
  lemma {:induction false} MergedLayers(dev: seq<Entry>, sdlc: seq<Entry>, user: seq<Entry>)
    ensures var merged := Merged(dev, sdlc, user);
            && |merged| == |dev| + |sdlc| + |user|
            && (forall i :: 0 <= i < |dev| ==> merged[i] == dev[i].(tier := Some(DevTier)))
            && (forall i :: 0 <= i < |sdlc| ==> merged[|dev| + i] == sdlc[i].(integrity := Some(Sdlc), tier := Some(SdlcTier)))
            && (forall i :: 0 <= i < |user| ==>
                  merged[|dev| + |sdlc| + i] == user[i].(integrity := Some(User), tier := Some(UserTier)))
  {
  }

  /** An entry of a user source with an ordinary id goes exactly when the config disables it and its floor field is not `advisory`. */
  lemma {:induction false} UserEntryGoesIff(sources: seq<Source>, sdlc: seq<Entry>, os: Overrides, e: Entry)
    requires SomeGives(sources, false, e) && !("INV-" <= e.id) && !("SDLC-" <= e.id)
    requires forall x :: x in Merged(DevEntries(sources), sdlc, UserEntries(sources)) && x.id == e.id ==>
               x == e.(integrity := Some(User), tier := Some(UserTier))
    ensures (forall x :: x in EffectiveCatalog(sources, sdlc, os).entries ==> x.id != e.id) <==>
              IsDisabled(os, e) && e.rawFloor != Some("advisory")
  {
    var dev, user, t := DevEntries(sources), UserEntries(sources), e.(integrity := Some(User), tier := Some(UserTier));
    UserEntriesAre(sources, e);
    MergedLayers(dev, sdlc, user);
    var i :| 0 <= i < |user| && user[i] == e;
    var merged := Merged(dev, sdlc, user);
    assert merged[|dev| + |sdlc| + i] == t;
    if e.rawFloor == Some("advisory") {
      MergedEntryFate(sources, sdlc, os, |dev| + |sdlc| + i);
      RemovedIff(os, e, UserTier);
      ClampKeepsId(os, t);
    } else {
      FreeGoesIff(sources, sdlc, os, t);
    }
  }

  /** An sdlc entry with no `disable` floor of its own is in the effective catalog of every config. */
  lemma {:induction false} SdlcEntriesStay(sources: seq<Source>, sdlc: seq<Entry>, os: Overrides, i: nat)
    requires i < |sdlc| && sdlc[i].rawFloor != Some("disable")
    ensures var e, r := sdlc[i].(integrity := Some(Sdlc), tier := Some(SdlcTier)), EffectiveCatalog(sources, sdlc, os);
            e in r.entries || e.(severity := Some(Severity(Advisory, map[], map[]))) in r.entries
  {
    var merged := Merged(DevEntries(sources), sdlc, UserEntries(sources));
    var k := |DevEntries(sources)| + i;
    var e := InTier(sdlc[i], SdlcTier);
    assert merged[k] == e;
    MergedEntryFate(sources, sdlc, os, k);
    RemovedIff(os, sdlc[i], SdlcTier);
    if e.id in os.byId { FloorsHold(e, os.byId[e.id], "", ""); }
  }
}
