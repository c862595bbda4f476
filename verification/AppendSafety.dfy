/** What every schedule of the append protocol keeps, and the theorems over whole runs. */
module AppendSafety {
  import opened Wrappers
  import opened EventTables
  import opened AppendProtocol

  // ----- the invariant

  /** An outcome that a fresh commit of this very call gave. */
  predicate IsCommit(o: Outcome) {
    o.Committed? || (o.OnceResult? && o.first)
  }

  predicate Finished(x: Call) {
    (x.phase.Done? || x.phase.Notifying?) && IsCommit(x.phase.outcome)
  }

  function StreamOf(r: Request): StreamId
    requires !r.DecideOnce?
  {
    r.stream
  }

  /** `seen` is the whole log of the stream as it stood at the fold. */
  ghost predicate Folded(h: seq<Entry>, x: Call) {
    && x.request.Decide? && x.request.reducer.Some?
    && x.foldedAt <= |h|
    && x.seen == LogOf(Logs(h[..x.foldedAt]), x.request.stream)
    && TailVersion(x.seen) == |x.seen|
  }

  ghost predicate Answered(x: Call, inputs: seq<EventInput>)
    requires x.request.Decide? && x.request.reducer.Some?
  {
    x.request.closure(Fold(x.request.reducer.value, x.seen), |x.seen|, x.tape) == Produced(inputs)
  }

  ghost predicate AppendOk(h: seq<Entry>, x: Call, a: AppendRequest) {
    && x.key == a.key
    && match x.request
       case Append(stream, inputs, key, expected) => a == AppendRequest(stream, key, inputs, expected)
       case Decide(stream, _, _, _, operation, _, _, _) =>
         && Folded(h, x) && Answered(x, a.inputs)
         && a.stream == stream && a.expected == Some(|x.seen|) && a.key.Some?
         && (operation.Some? ==> a.key.value == KeyText(x.request, ""))
       case DecideOnce(_, _, _) => false
  }

  ghost predicate OutcomeOk(h: seq<Entry>, c: nat, x: Call, o: Outcome) {
    match o
    case Committed(receipt) =>
      && !x.request.DecideOnce?
      && x.commit < |h| && h[x.commit].call == c && receipt == ReceiptOf(h[x.commit].rows)
    case CacheHit(receipt) =>
      && !x.request.DecideOnce? && x.key.Some?
      && x.commit < |h| && !h[x.commit].request.DecideOnce?
      && SlotOf(h[x.commit]) == Some((StreamOf(x.request), x.key.value))
      && receipt == ReceiptOf(h[x.commit].rows)
    case NoOp =>
      && Folded(h, x) && Answered(x, [])
      && (x.request.enforce ==>
            x.checkedAt <= |h| && x.seen == LogOf(Logs(h[..x.checkedAt]), x.request.stream))
    case OnceResult(result, first) =>
      && x.request.DecideOnce?
      && x.commit < |h| && h[x.commit].request.DecideOnce?
      && h[x.commit].request.id == x.request.id && h[x.commit].request.digest == x.request.digest
      && result == h[x.commit].result && (first ==> h[x.commit].call == c)
    case Failed(_) => true
  }

  ghost predicate CallOk(h: seq<Entry>, c: nat, x: Call) {
    match x.phase
    case Idle => !x.request.Append? && x.key.None? && (x.request.Decide? ==> x.request.reducer.Some?)
    case Deciding => Folded(h, x)
    case Rechecking => Folded(h, x) && Answered(x, [])
    case Claiming(a) => AppendOk(h, x, a)
    case Writing(a, _) => AppendOk(h, x, a) && WellFormed(a)
    case Racing(a) => AppendOk(h, x, a)
    case OnceWriting(_) => x.request.DecideOnce? && x.key.None?
    case Notifying(o) => IsCommit(o) && OutcomeOk(h, c, x, o)
    case Done(o) => OutcomeOk(h, c, x, o)
  }

  /** Each commit belongs to one call, which reports it and no other. */
  ghost predicate EntryOk(calls: map<nat, Call>, h: seq<Entry>, i: nat)
    requires i < |h|
  {
    && h[i].call in calls
    && calls[h[i].call].request == h[i].request
    && calls[h[i].call].key == h[i].key
    && calls[h[i].call].commit == i
    && Finished(calls[h[i].call])
  }

  /** The tables are a function of the sequential history. */
  ghost predicate TablesOk(t: Tables, h: seq<Entry>) {
    Dense(t) && Snapshot(t) == Logs(h) && t.claims == Claims(h)
  }

  ghost predicate CallsOk(calls: map<nat, Call>, h: seq<Entry>) {
    forall c :: c in calls ==> CallOk(h, c, calls[c])
  }

  ghost predicate EntriesOk(calls: map<nat, Call>, h: seq<Entry>) {
    forall i :: 0 <= i < |h| ==> EntryOk(calls, h, i)
  }

  /** The commit hook ran once for each call that committed and returned, and for no other call. */
  ghost predicate NotifiedOk(calls: map<nat, Call>, notified: seq<nat>) {
    && (forall i, j :: 0 <= i < j < |notified| ==> notified[i] != notified[j])
    && (forall c :: c in notified <==> c in calls && Finished(calls[c]) && calls[c].phase.Done?)
  }

  ghost predicate Inv(w: World) {
    && TablesOk(w.tables, w.history)
    && Sequential(w.history)
    && CallsOk(w.calls, w.history)
    && EntriesOk(w.calls, w.history)
    && NotifiedOk(w.calls, w.notified)
  }

  // ----- facts about histories

  lemma {:induction false} LogsPrefix(h: seq<Entry>, n: nat, s: StreamId)
    requires n <= |h|
    ensures LogOf(Logs(h[..n]), s) <= LogOf(Logs(h), s)
  {
    if n < |h| {
      LogsPrefix(h[..|h| - 1], n, s);
      assert h[..|h| - 1][..n] == h[..n];
    } else {
      assert h[..n] == h;
    }
  }

  lemma {:induction false} ClaimHasCommit(h: seq<Entry>, slot: (StreamId, Key))
    requires slot in Claims(h)
    ensures var i := CommitOf(h, slot);
            i < |h| && SlotOf(h[i]) == Some(slot) && Claims(h)[slot] == ClaimOf(h[i])
  {
    if SlotOf(h[|h| - 1]) != Some(slot) {
      ClaimHasCommit(h[..|h| - 1], slot);
    }
  }

  lemma {:induction false} CommitHasClaim(h: seq<Entry>, i: nat)
    requires i < |h| && SlotOf(h[i]).Some? && Sequential(h)
    ensures SlotOf(h[i]).value in Claims(h) && Claims(h)[SlotOf(h[i]).value] == ClaimOf(h[i])
  {
    if i < |h| - 1 {
      CommitHasClaim(h[..|h| - 1], i);
    }
  }

  lemma {:induction false} AtomicAt(h: seq<Entry>, i: nat)
    requires i < |h| && Sequential(h)
    ensures Atomic(h[i], h[..i])
  {
    if i < |h| - 1 {
      AtomicAt(h[..|h| - 1], i);
      assert h[..|h| - 1][..i] == h[..i];
    }
  }

  /** One more commit, seen from the definitions that recurse on the last one. */
  lemma {:induction false} HistoryGrows(h: seq<Entry>, e: Entry)
    ensures Logs(h + [e]) == Logs(h)[e.stream := LogOf(Logs(h), e.stream) + e.rows]
    ensures SlotOf(e).Some? ==> Claims(h + [e]) == Claims(h)[SlotOf(e).value := ClaimOf(e)]
    ensures SlotOf(e).None? ==> Claims(h + [e]) == Claims(h)
  {
    assert (h + [e])[..|h|] == h;
  }

  lemma {:induction false} SequentialGrows(h: seq<Entry>, e: Entry)
    requires Sequential(h) && Atomic(e, h)
    ensures Sequential(h + [e])
  {
    assert (h + [e])[..|h|] == h;
  }

  /** The tables read as the abstract log, and the tail version of a read is its length. */
  lemma {:induction false} ReadsLog(t: Tables, h: seq<Entry>, s: StreamId)
    requires TablesOk(t, h)
    ensures QueryEvents(t, s) == LogOf(Logs(h), s)
    ensures |LogOf(Logs(h), s)| == Mark(t, s)
    ensures TailVersion(QueryEvents(t, s)) == Mark(t, s)
  {
    assert DenseTo(RowsOf(t.events, s), s, Mark(t, s));
    DenseSorted(RowsOf(t.events, s), s, Mark(t, s));
    assert s in t.marks <==> s in Snapshot(t);
  }

  /** What a commit by either transaction does to the tables and the history. */
  lemma {:induction false} TablesGrow(t: Tables, h: seq<Entry>, e: Entry, t': Tables)
    requires TablesOk(t, h)
    requires NextBlock(t, e.stream, e.rows)
    requires t' == Grow(t, e.stream, e.rows).(claims := t'.claims)
    requires t'.claims == if SlotOf(e).Some? then t.claims[SlotOf(e).value := ClaimOf(e)] else t.claims
    ensures TablesOk(t', h + [e])
  {
    var g := Grow(t, e.stream, e.rows);
    ReadsLog(t, h, e.stream);
    GrowDense(t, e.stream, e.rows);
    GrowSnapshot(t, e.stream, e.rows);
    HistoryGrows(h, e);
    assert t'.events == g.events && t'.marks == g.marks;
    forall s ensures DenseTo(RowsOf(t'.events, s), s, Mark(t', s)) {
      assert DenseTo(RowsOf(g.events, s), s, Mark(g, s));
    }
    assert Snapshot(t') == Snapshot(g) by {
      forall s | s in t'.marks ensures QueryEvents(t', s) == QueryEvents(g, s) {
      }
    }
  }

  // ----- what each step does to one call

  /** What was true of a call stays true when the history grows. */
  lemma {:induction false} CallOkGrows(h: seq<Entry>, e: Entry, c: nat, x: Call)
    requires CallOk(h, c, x)
    ensures CallOk(h + [e], c, x)
  {
    assert x.foldedAt <= |h| ==> (h + [e])[..x.foldedAt] == h[..x.foldedAt];
    assert x.checkedAt <= |h| ==> (h + [e])[..x.checkedAt] == h[..x.checkedAt];
  }

  lemma {:induction false} FoldOk(t: Tables, h: seq<Entry>, c: nat, x: Call)
    requires TablesOk(t, h) && CallOk(h, c, x) && x.phase.Idle? && x.request.Decide?
    ensures CallOk(h, c, x.(phase := Deciding, seen := QueryEvents(t, x.request.stream), foldedAt := |h|))
  {
    ReadsLog(t, h, x.request.stream);
    assert h[..|h|] == h;
  }

  lemma ClosureOk(h: seq<Entry>, c: nat, x: Call, tape: nat, uuid: string)
    requires CallOk(h, c, x) && x.phase.Deciding?
    ensures CallOk(h, c, OnClosure(x, tape, uuid)) && !Finished(OnClosure(x, tape, uuid))
  {
    KeyIsItsParts(x.request, uuid);
    hide KeyText, DecideKey, Fold;
  }

  /** The tail re-read compares lengths, and the log only grows, so an equal tail is an equal log. */
  lemma {:induction false} CheckOk(t: Tables, h: seq<Entry>, c: nat, x: Call)
    requires TablesOk(t, h) && CallOk(h, c, x) && x.phase.Rechecking?
    ensures CallOk(h, c, OnCheck(x, Mark(t, x.request.stream), |h|))
  {
    ReadsLog(t, h, x.request.stream);
    LogsPrefix(h, x.foldedAt, x.request.stream);
    assert h[..|h|] == h;
  }

  lemma BusyOk(h: seq<Entry>, c: nat, x: Call)
    requires CallOk(h, c, x) && !Finished(x)
    ensures CallOk(h, c, OnBusy(x)) && !Finished(OnBusy(x))
  {
  }

  lemma {:induction false} LookupOk(h: seq<Entry>, c: nat, x: Call)
    requires CallOk(h, c, x) && !Finished(x)
    ensures CallOk(h, c, OnLookup(x, Claims(h), h)) && !Finished(OnLookup(x, Claims(h), h))
  {
    if x.phase.Claiming? {
      var a := x.phase.append;
      if a.key.Some? && (a.stream, a.key.value) in Claims(h) {
        ClaimHasCommit(h, (a.stream, a.key.value));
      }
    } else if x.phase.Idle? && x.request.DecideOnce? && (ONCE_STREAM, x.request.id) in Claims(h) {
      ClaimHasCommit(h, (ONCE_STREAM, x.request.id));
    }
  }

  lemma {:induction false} RereadOk(h: seq<Entry>, c: nat, x: Call)
    requires CallOk(h, c, x) && x.phase.Racing?
    ensures CallOk(h, c, OnReread(x, Claims(h), h)) && !Finished(OnReread(x, Claims(h), h))
  {
    var a := x.phase.append;
    if a.key.Some? && (a.stream, a.key.value) in Claims(h) {
      ClaimHasCommit(h, (a.stream, a.key.value));
    }
  }

  /** The gate compares the folded tail with the mark, so a decide that passes it saw the whole log. */
  lemma {:induction false} AppendIsAtomic(t: Tables, h: seq<Entry>, c: nat, x: Call, stamps: Stamps)
    requires TablesOk(t, h) && CallOk(h, c, x) && x.phase.Writing?
    requires RunAppend(t, x.phase.append, stamps).Applied?
    ensures var a := x.phase.append;
            Atomic(Entry(c, x.request, a.stream, RunAppend(t, a, stamps).rows, a.key, "", x.tape, stamps), h)
  {
    var a := x.phase.append;
    ReadsLog(t, h, a.stream);
    FinalizeIs(a.stream, a.key, a.inputs, Mark(t, a.stream), stamps);
    hide Finalize, AreRows, KeyText;
    if x.request.Decide? {
      LogsPrefix(h, x.foldedAt, a.stream);
      assert x.seen == LogOf(Logs(h), a.stream);
    }
  }

  lemma {:induction false} OnceIsAtomic(t: Tables, h: seq<Entry>, c: nat, r: Request, stamps: Stamps)
    requires TablesOk(t, h) && r.DecideOnce?
    requires RunOnce(t, r.id, r.digest, r.decision, stamps).OnceApplied?
    ensures var a := RunOnce(t, r.id, r.digest, r.decision, stamps);
            Atomic(Entry(c, r, r.decision(Snapshot(t)).stream, a.rows, None, a.result, 0, stamps), h)
  {
    var out := r.decision(Snapshot(t));
    ReadsLog(t, h, out.stream);
    FinalizeIs(out.stream, None, out.inputs, Mark(t, out.stream), stamps);
    hide Finalize, AreRows;
  }

  /** What an append attempt leaves: a new atomic commit that its call reports, or nothing but a new phase. */
  lemma {:induction false} AppendEffect(t: Tables, h: seq<Entry>, c: nat, x: Call, stamps: Stamps)
    requires TablesOk(t, h) && CallOk(h, c, x) && x.phase.Writing?
    requires RunAppend(t, x.phase.append, stamps).Applied?
    ensures var a := x.phase.append;
            var rows := RunAppend(t, a, stamps).rows;
            var e := Entry(c, x.request, a.stream, rows, a.key, "", x.tape, stamps);
            && TablesOk(RunAppend(t, a, stamps).tables, h + [e]) && Atomic(e, h)
            && CallOk(h + [e], c, x.(phase := Notifying(Committed(ReceiptOf(rows))), commit := |h|))
  {
    var a := x.phase.append;
    var attempt := RunAppend(t, a, stamps);
    AppendIsAtomic(t, h, c, x, stamps);
    TablesGrow(t, h, Entry(c, x.request, a.stream, attempt.rows, a.key, "", x.tape, stamps), attempt.tables);
  }

  lemma {:induction false} OnceEffect(t: Tables, h: seq<Entry>, c: nat, x: Call, stamps: Stamps)
    requires TablesOk(t, h) && x.request.DecideOnce? && x.key.None?
    requires RunOnce(t, x.request.id, x.request.digest, x.request.decision, stamps).OnceApplied?
    ensures var r := x.request;
            var a := RunOnce(t, r.id, r.digest, r.decision, stamps);
            var e := Entry(c, r, r.decision(Snapshot(t)).stream, a.rows, None, a.result, 0, stamps);
            && TablesOk(a.tables, h + [e]) && Atomic(e, h)
            && CallOk(h + [e], c, x.(phase := Notifying(OnceResult(a.result, true)), commit := |h|))
  {
    var r := x.request;
    var a := RunOnce(t, r.id, r.digest, r.decision, stamps);
    OnceIsAtomic(t, h, c, r, stamps);
    TablesGrow(t, h, Entry(c, r, r.decision(Snapshot(t)).stream, a.rows, None, a.result, 0, stamps), a.tables);
  }

  lemma RefusedOk(h: seq<Entry>, c: nat, x: Call, attempt: Attempt)
    requires CallOk(h, c, x) && x.phase.Writing? && !attempt.Applied?
    ensures CallOk(h, c, OnRefused(x, attempt)) && !Finished(OnRefused(x, attempt))
  {
  }

  lemma {:induction false} OnceRefusedOk(t: Tables, h: seq<Entry>, c: nat, x: Call, stamps: Stamps, attempt: OnceAttempt)
    requires t.claims == Claims(h) && x.request.DecideOnce? && !attempt.OnceApplied?
    requires attempt == RunOnce(t, x.request.id, x.request.digest, x.request.decision, stamps)
    ensures CallOk(h, c, OnOnceRefused(x, attempt, h)) && !Finished(OnOnceRefused(x, attempt, h))
  {
    if attempt.OnceHit? { ClaimHasCommit(h, (ONCE_STREAM, x.request.id)); }
  }

  // ----- each step keeps the invariant

  predicate Reported(x: Call) {
    x.phase.Done? && IsCommit(x.phase.outcome)
  }

  lemma {:induction false} EntriesLocal(calls: map<nat, Call>, h: seq<Entry>, c: nat, x': Call)
    requires EntriesOk(calls, h) && (c in calls ==> !Finished(calls[c]))
    ensures EntriesOk(calls[c := x'], h)
  {
    var calls' := calls[c := x'];
    forall i | 0 <= i < |h| ensures EntryOk(calls', h, i) {
      assert EntryOk(calls, h, i);
    }
  }

  lemma NotifiedLocal(calls: map<nat, Call>, notified: seq<nat>, c: nat, x': Call)
    requires NotifiedOk(calls, notified) && (c in calls ==> !Reported(calls[c])) && !Reported(x')
    ensures NotifiedOk(calls[c := x'], notified)
  {
  }

  /** A step that changes one unfinished call, and no table, keeps the invariant. */
  lemma {:induction false} LocalStep(w: World, c: nat, x': Call)
    requires Inv(w) && (c in w.calls ==> !Finished(w.calls[c])) && !Finished(x')
    requires CallOk(w.history, c, x')
    ensures Inv(w.(calls := w.calls[c := x']))
  {
    EntriesLocal(w.calls, w.history, c, x');
    NotifiedLocal(w.calls, w.notified, c, x');
  }

  lemma {:induction false} CallsCommit(calls: map<nat, Call>, h: seq<Entry>, c: nat, x': Call, e: Entry)
    requires CallsOk(calls, h) && CallOk(h + [e], c, x')
    ensures CallsOk(calls[c := x'], h + [e])
  {
    var calls' := calls[c := x'];
    forall d | d in calls' ensures CallOk(h + [e], d, calls'[d]) {
      if d != c { CallOkGrows(h, e, d, calls[d]); }
    }
  }

  lemma {:induction false} EntriesCommit(calls: map<nat, Call>, h: seq<Entry>, c: nat, x': Call, e: Entry)
    requires EntriesOk(calls, h) && (c in calls ==> !Finished(calls[c]))
    requires Finished(x') && x'.commit == |h| && e.call == c && x'.request == e.request && x'.key == e.key
    ensures EntriesOk(calls[c := x'], h + [e])
  {
    var calls', h' := calls[c := x'], h + [e];
    forall i | 0 <= i < |h'| ensures EntryOk(calls', h', i) {
      if i < |h| { assert EntryOk(calls, h, i); }
    }
  }

  /** A commit by call `c` keeps the invariant, whichever transaction made it. */
  lemma {:induction false} CommitStep(w: World, c: nat, x': Call, e: Entry, t': Tables)
    requires Sequential(w.history) && CallsOk(w.calls, w.history) && EntriesOk(w.calls, w.history)
    requires NotifiedOk(w.calls, w.notified)
    requires c in w.calls && !Finished(w.calls[c])
    requires x'.phase.Notifying? && Finished(x') && x'.commit == |w.history|
    requires e.call == c && x'.request == e.request && x'.key == e.key
    requires TablesOk(t', w.history + [e]) && Atomic(e, w.history)
    requires CallOk(w.history + [e], c, x')
    ensures Inv(World(t', w.calls[c := x'], w.history + [e], w.notified))
  {
    SequentialGrows(w.history, e);
    CallsCommit(w.calls, w.history, c, x', e);
    EntriesCommit(w.calls, w.history, c, x', e);
    NotifiedLocal(w.calls, w.notified, c, x');
  }

  lemma {:induction false} AppendCommits(w: World, c: nat, stamps: Stamps)
    requires Inv(w) && c in w.calls && w.calls[c].phase.Writing?
    requires RunAppend(w.tables, w.calls[c].phase.append, stamps).Applied?
    ensures Inv(OnAppend(w, c, stamps))
  {
    var x := w.calls[c];
    var a := x.phase.append;
    var attempt := RunAppend(w.tables, a, stamps);
    assert CallOk(w.history, c, x);
    AppendEffect(w.tables, w.history, c, x, stamps);
    CommitStep(w, c, x.(phase := Notifying(Committed(ReceiptOf(attempt.rows))), commit := |w.history|),
               Entry(c, x.request, a.stream, attempt.rows, a.key, "", x.tape, stamps), attempt.tables);
  }

  lemma {:induction false} AppendFails(w: World, c: nat, stamps: Stamps)
    requires Inv(w) && c in w.calls && w.calls[c].phase.Writing?
    requires !RunAppend(w.tables, w.calls[c].phase.append, stamps).Applied?
    ensures Inv(OnAppend(w, c, stamps))
  {
    var x := w.calls[c];
    var attempt := RunAppend(w.tables, x.phase.append, stamps);
    assert CallOk(w.history, c, x);
    RefusedOk(w.history, c, x, attempt);
    LocalStep(w, c, OnRefused(x, attempt));
  }

  lemma {:induction false} OnceCommits(w: World, c: nat, stamps: Stamps, x: Call, attempt: OnceAttempt)
    requires Inv(w) && c in w.calls && x == w.calls[c] && x.phase.OnceWriting? && x.request.DecideOnce?
    requires attempt == RunOnce(w.tables, x.request.id, x.request.digest, x.request.decision, stamps)
    requires attempt.OnceApplied?
    ensures Inv(OnOnce(w, c, stamps))
  {
    var r := x.request;
    assert CallOk(w.history, c, x);
    OnceEffect(w.tables, w.history, c, x, stamps);
    CommitStep(w, c, x.(phase := Notifying(OnceResult(attempt.result, true)), commit := |w.history|),
               Entry(c, r, r.decision(Snapshot(w.tables)).stream, attempt.rows, None, attempt.result, 0, stamps),
               attempt.tables);
  }

  lemma {:induction false} OnceFails(w: World, c: nat, stamps: Stamps)
    requires Inv(w) && c in w.calls && w.calls[c].phase.OnceWriting? && w.calls[c].request.DecideOnce?
    requires var r := w.calls[c].request; !RunOnce(w.tables, r.id, r.digest, r.decision, stamps).OnceApplied?
    ensures Inv(OnOnce(w, c, stamps))
  {
    var x := w.calls[c];
    var r := x.request;
    var attempt := RunOnce(w.tables, r.id, r.digest, r.decision, stamps);
    OnceRefusedOk(w.tables, w.history, c, x, stamps, attempt);
    LocalStep(w, c, OnOnceRefused(x, attempt, w.history));
  }

  lemma {:induction false} EntriesNotify(calls: map<nat, Call>, h: seq<Entry>, c: nat, x': Call)
    requires EntriesOk(calls, h) && c in calls && Finished(x')
    requires x'.request == calls[c].request && x'.key == calls[c].key && x'.commit == calls[c].commit
    ensures EntriesOk(calls[c := x'], h)
  {
    var calls' := calls[c := x'];
    forall i | 0 <= i < |h| ensures EntryOk(calls', h, i) {
      assert EntryOk(calls, h, i);
    }
  }

  lemma {:induction false} NotifiedOnce(calls: map<nat, Call>, notified: seq<nat>, c: nat, x': Call)
    requires NotifiedOk(calls, notified) && c in calls && !Reported(calls[c]) && Reported(x')
    ensures NotifiedOk(calls[c := x'], notified + [c])
  {
    assert c !in notified;
    var notified' := notified + [c];
    forall d ensures d in notified' <==> d in notified || d == c {
    }
  }

  lemma {:induction false} NotifyStep(w: World, c: nat, x': Call)
    requires Inv(w) && c in w.calls && w.calls[c].phase.Notifying?
    requires x' == w.calls[c].(phase := Done(w.calls[c].phase.outcome))
    ensures Inv(w.(calls := w.calls[c := x'], notified := w.notified + [c]))
  {
    assert CallOk(w.history, c, w.calls[c]);
    assert Reported(x') && CallOk(w.history, c, x');
    EntriesNotify(w.calls, w.history, c, x');
    NotifiedOnce(w.calls, w.notified, c, x');
  }

  lemma {:induction false} TransactStep(w: World, action: Action)
    requires Inv(w) && action.Transact?
    ensures Inv(Step(w, action))
  {
    var c, stamps := action.call, action.stamps;
    if c in w.calls && w.calls[c].phase.Writing? {
      if RunAppend(w.tables, w.calls[c].phase.append, stamps).Applied? { AppendCommits(w, c, stamps); }
      else { AppendFails(w, c, stamps); }
    } else if c in w.calls && w.calls[c].phase.OnceWriting? && w.calls[c].request.DecideOnce? {
      var r := w.calls[c].request;
      var attempt := RunOnce(w.tables, r.id, r.digest, r.decision, stamps);
      if attempt.OnceApplied? { OnceCommits(w, c, stamps, w.calls[c], attempt); }
      else { OnceFails(w, c, stamps); }
    }
  }

  lemma {:induction false} AdvanceOk(w: World, action: Action)
    requires TablesOk(w.tables, w.history) && action.call in w.calls
    requires CallOk(w.history, action.call, w.calls[action.call]) && !Finished(w.calls[action.call])
    ensures CallOk(w.history, action.call, Advance(w, action)) && !Finished(Advance(w, action))
  {
    var c := action.call;
    var x := w.calls[c];
    var h := w.history;
    match action
    case FoldStream(_) => if x.phase.Idle? && x.request.Decide? { FoldOk(w.tables, h, c, x); }
    case RunClosure(_, tape, uuid) => if x.phase.Deciding? { ClosureOk(h, c, x, tape, uuid); }
    case CheckTail(_) => if x.phase.Rechecking? && x.request.Decide? { CheckOk(w.tables, h, c, x); }
    case LookupClaim(_) => LookupOk(h, c, x);
    case BusyAttempt(_) => BusyOk(h, c, x);
    case Reread(_) => if x.phase.Racing? { RereadOk(h, c, x); }
    case _ =>
  }

  lemma {:induction false} StepKeepsInv(w: World, action: Action)
    requires Inv(w)
    ensures Inv(Step(w, action))
  {
    var c := action.call;
    if action.Invoke? {
      if c !in w.calls { LocalStep(w, c, OnInvoke(action.request)); }
    } else if action.Transact? {
      TransactStep(w, action);
    } else if action.Notify? {
      if c in w.calls && w.calls[c].phase.Notifying? {
        NotifyStep(w, c, w.calls[c].(phase := Done(w.calls[c].phase.outcome)));
      }
    } else if c in w.calls {
      assert CallOk(w.history, c, w.calls[c]);
      if Finished(w.calls[c]) {
        assert w.calls[c := w.calls[c]] == w.calls;
      } else {
        AdvanceOk(w, action);
        LocalStep(w, c, Advance(w, action));
      }
    }
  }

  lemma {:induction false} RunKeepsInv(actions: seq<Action>)
    ensures Inv(Run(actions))
  {
    if actions != [] {
      RunKeepsInv(actions[..|actions| - 1]);
      StepKeepsInv(Run(actions[..|actions| - 1]), actions[|actions| - 1]);
    }
  }
}
