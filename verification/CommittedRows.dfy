/**
 * What a commit stores and reports, member by member and in every schedule, and the texts that it depends on: the key of a
 * decision and the id of a stream.
 */
module CommittedRows {
  import opened Wrappers
  import opened Texts
  import opened EventTables
  import opened AppendProtocol
  import opened AppendSafety
  import opened AppendTheorems

  // ----- what a commit stores

  /** The table of a stream holds an event under a sequence. */
  predicate HoldsInput(t: Tables, s: StreamId, sequence: nat, input: EventInput, key: Option<Key>, stamp: Stamp) {
    && s in t.events && sequence in t.events[s]
    && t.events[s][sequence] == Row(s, sequence, input.body,
                                    if input.timestamp.Some? then input.timestamp.value else stamp.now, stamp.id, key)
  }

  /** It holds the events of a call after a mark, in the order in which the call gave them. */
  predicate HoldsInputs(t: Tables, s: StreamId, mark: nat, inputs: seq<EventInput>, key: Option<Key>, stamps: Stamps) {
    forall i :: 0 <= i < |inputs| ==> HoldsInput(t, s, mark + i + 1, inputs[i], key, stamps(i))
  }

  /** One place of a receipt reports a sequence, and the id and the timestamp of the row under it. */
  predicate ReportsAt(receipt: Receipt, t: Tables, s: StreamId, mark: nat, i: nat)
    requires i < |receipt.sequences| && i < |receipt.ids| && i < |receipt.timestamps|
  {
    var sequence := mark + i + 1;
    && receipt.sequences[i] == sequence && s in t.events && sequence in t.events[s]
    && receipt.ids[i] == t.events[s][sequence].id && receipt.timestamps[i] == t.events[s][sequence].timestamp
  }

  /** A receipt reports the rows after a mark. */
  predicate Reports(receipt: Receipt, t: Tables, s: StreamId, mark: nat, n: nat) {
    && |receipt.sequences| == n && |receipt.ids| == n && |receipt.timestamps| == n
    && forall i :: 0 <= i < n ==> ReportsAt(receipt, t, s, mark, i)
  }

  /** A commit of these events: they are the end of their stream, nothing else changed, and the receipt reports their rows. */
  ghost predicate Stores(t: Tables, now: Tables, s: StreamId, inputs: seq<EventInput>, key: Option<Key>, stamps: Stamps,
                         receipt: Receipt)
  {
    var mark := Mark(t, s);
    && HoldsInputs(now, s, mark, inputs, key, stamps) && Reports(receipt, now, s, mark, |inputs|)
    && Mark(now, s) == mark + |inputs|
    && |QueryEvents(now, s)| == mark + |inputs| && QueryEvents(t, s) <= QueryEvents(now, s)
    && forall z :: z != s ==> QueryEvents(now, z) == QueryEvents(t, z) && Mark(now, z) == Mark(t, z)
  }

  lemma {:induction false} RowsHoldInputs(t: Tables, s: StreamId, mark: nat, inputs: seq<EventInput>, key: Option<Key>, stamps: Stamps,
                                          rows: seq<Row>)
    requires rows == Finalize(s, key, inputs, mark, stamps) && Stored(t, rows)
    ensures HoldsInputs(t, s, mark, inputs, key, stamps) && Reports(ReceiptOf(rows), t, s, mark, |inputs|)
  {
    forall i | 0 <= i < |inputs| ensures HoldsInput(t, s, mark + i + 1, inputs[i], key, stamps(i)) {
      assert Holds(t, rows[i]);
    }
    forall i | 0 <= i < |inputs| ensures ReportsAt(ReceiptOf(rows), t, s, mark, i) {
      assert Holds(t, rows[i]);
    }
  }

  lemma {:induction false} GrowReads(t: Tables, now: Tables, s: StreamId, rows: seq<Row>)
    requires Dense(t) && NextBlock(t, s, rows) && now == Grow(t, s, rows).(claims := now.claims)
    ensures |QueryEvents(now, s)| == Mark(t, s) + |rows| == Mark(now, s) && QueryEvents(t, s) <= QueryEvents(now, s)
    ensures forall z :: z != s ==> QueryEvents(now, z) == QueryEvents(t, z) && Mark(now, z) == Mark(t, z)
    ensures Stored(now, rows)
  {
    var grown := Grow(t, s, rows);
    GrowStores(t, s, rows);
    assert now.marks == grown.marks && now.events == grown.events;
    assert Stored(now, rows) by {
      forall i | 0 <= i < |rows| ensures Holds(now, rows[i]) { assert Holds(grown, rows[i]); }
    }
    assert DenseTo(RowsOf(t.events, s), s, Mark(t, s));
    hide Sorted, InsertRows, DenseTo, Stored, Dense, NextBlock;
    DenseSorted(RowsOf(t.events, s), s, Mark(t, s));
    forall z ensures QueryEvents(now, z) == QueryEvents(t, z) + if z == s then rows else [] {
      GrowQuery(t, s, rows, z);
      assert QueryEvents(now, z) == QueryEvents(grown, z);
    }
  }

  lemma {:induction false} GrowStoresInputs(t: Tables, now: Tables, s: StreamId, inputs: seq<EventInput>, key: Option<Key>,
                                            stamps: Stamps)
    requires Dense(t)
    requires var rows := Finalize(s, key, inputs, Mark(t, s), stamps); now == Grow(t, s, rows).(claims := now.claims)
    ensures Stores(t, now, s, inputs, key, stamps, ReceiptOf(Finalize(s, key, inputs, Mark(t, s), stamps)))
  {
    var mark := Mark(t, s);
    var rows := Finalize(s, key, inputs, mark, stamps);
    assert NextBlock(t, s, rows);
    hide Grow, QueryEvents, ReceiptOf, HoldsInputs, Reports, Dense, Stored, NextBlock;
    GrowReads(t, now, s, rows);
    RowsHoldInputs(now, s, mark, inputs, key, stamps, rows);
  }

  /** An append attempt that applies stores its events, and its claim carries the receipt. */
  lemma {:induction false} AppendStores(t: Tables, a: AppendRequest, stamps: Stamps)
    requires Dense(t) && RunAppend(t, a, stamps).Applied?
    ensures var attempt := RunAppend(t, a, stamps);
            var claim := Claim(ReceiptOf(attempt.rows), Events(attempt.rows));
            && Stores(t, attempt.tables, a.stream, a.inputs, a.key, stamps, ReceiptOf(attempt.rows))
            && attempt.tables.claims == if a.key.None? then t.claims else t.claims[(a.stream, a.key.value) := claim]
  {
    GrowStoresInputs(t, RunAppend(t, a, stamps).tables, a.stream, a.inputs, a.key, stamps);
  }

  /** The same for a once-only decision, with the events that its closure gave. */
  lemma {:induction false} OnceStores(t: Tables, op: Key, digest: string, closure: OnceClosure, stamps: Stamps)
    requires Dense(t) && RunOnce(t, op, digest, closure, stamps).OnceApplied?
    ensures var attempt, out := RunOnce(t, op, digest, closure, stamps), closure(Snapshot(t));
            var claim := Claim(ReceiptOf(attempt.rows), Decision(out.stream, digest, out.result, attempt.rows));
            && Stores(t, attempt.tables, out.stream, out.inputs, None, stamps, ReceiptOf(attempt.rows))
            && attempt.result == out.result && attempt.tables.claims == t.claims[(ONCE_STREAM, op) := claim]
  {
    var out := closure(Snapshot(t));
    GrowStoresInputs(t, RunOnce(t, op, digest, closure, stamps).tables, out.stream, out.inputs, None, stamps);
  }

  // ----- the step of a commit, under every schedule

  /** The events that a call commits at this moment, and to which stream: its own, or those that its closure gives on the whole log. */
  ghost predicate Gave(t: Tables, x: Call, s: StreamId, inputs: seq<EventInput>) {
    match x.request
    case Append(stream, own, _, _) => s == stream && inputs == own
    case Decide(stream, _, reducer, closure, _, _, _, _) =>
      && s == stream && reducer.Some?
      && var log := QueryEvents(t, stream); closure(Fold(reducer.value, log), |log|, x.tape) == Produced(inputs)
    case DecideOnce(_, _, decision) =>
      decision(Snapshot(t)).OnceDecided? && decision(Snapshot(t)).stream == s && decision(Snapshot(t)).inputs == inputs
  }

  /** The key of the rows: the one that an append names, the text of an operation, and none for a once-only decision. */
  ghost predicate KeyedAs(x: Call) {
    match x.request
    case Append(_, _, key, _) => x.key == key
    case Decide(_, _, _, _, operation, _, _, _) => x.key.Some? && (operation.Some? ==> x.key == Some(KeyText(x.request, "")))
    case DecideOnce(_, _, _) => x.key.None?
  }

  /** In every schedule the step that commits a call stores its events in order, and the call reports their rows. */
  lemma {:induction false} CommitStoresItsEvents(actions: seq<Action>, c: nat, stamps: Stamps)
    returns (s: StreamId, inputs: seq<EventInput>, receipt: Receipt)
    requires |Run(actions + [Transact(c, stamps)]).history| > |Run(actions).history|
    ensures c in Run(actions).calls && c in Run(actions + [Transact(c, stamps)]).calls
    ensures var w, now := Run(actions), Run(actions + [Transact(c, stamps)]);
            var x := w.calls[c];
            && inputs != [] && Gave(w.tables, x, s, inputs) && KeyedAs(x)
            && Stores(w.tables, now.tables, s, inputs, x.key, stamps, receipt)
            && now.calls[c].phase == Notifying(if x.request.DecideOnce? then OnceResult(x.request.decision(Snapshot(w.tables)).result, true)
                                              else Committed(receipt))
  {
    var w := Run(actions);
    RunKeepsInv(actions);
    RunOneMore(actions, Transact(c, stamps));
    var x := w.calls[c];
    assert CallOk(w.history, c, x);
    if x.phase.Writing? {
      s, inputs, receipt := AppendStepStores(w, c, stamps);
    } else {
      s, inputs, receipt := OnceStepStores(w, c, stamps);
    }
  }

  lemma {:induction false} AppendStepStores(w: World, c: nat, stamps: Stamps)
    returns (s: StreamId, inputs: seq<EventInput>, receipt: Receipt)
    requires TablesOk(w.tables, w.history) && c in w.calls && CallOk(w.history, c, w.calls[c]) && w.calls[c].phase.Writing?
    requires RunAppend(w.tables, w.calls[c].phase.append, stamps).Applied?
    ensures var now, x := OnAppend(w, c, stamps), w.calls[c];
            && inputs != [] && !x.request.DecideOnce? && Gave(w.tables, x, s, inputs) && KeyedAs(x)
            && Stores(w.tables, now.tables, s, inputs, x.key, stamps, receipt)
            && now.calls[c].phase == Notifying(Committed(receipt))
  {
    var x := w.calls[c];
    var a := x.phase.append;
    s, inputs, receipt := a.stream, a.inputs, ReceiptOf(RunAppend(w.tables, a, stamps).rows);
    AppendStores(w.tables, a, stamps);
    AnsweredOnTheLog(w, c, stamps);
    hide Stores;
  }

  lemma {:induction false} AnsweredOnTheLog(w: World, c: nat, stamps: Stamps)
    requires TablesOk(w.tables, w.history) && c in w.calls && CallOk(w.history, c, w.calls[c]) && w.calls[c].phase.Writing?
    requires RunAppend(w.tables, w.calls[c].phase.append, stamps).Applied?
    ensures var x, a := w.calls[c], w.calls[c].phase.append;
            a.inputs != [] && Gave(w.tables, x, a.stream, a.inputs) && KeyedAs(x) && x.key == a.key
  {
    var x, a := w.calls[c], w.calls[c].phase.append;
    assert AppendOk(w.history, x, a) && WellFormed(a);
    if x.request.Decide? {
      KeyIsItsParts(x.request, "");
      ReadsLog(w.tables, w.history, a.stream);
      LogsPrefix(w.history, x.foldedAt, a.stream);
      assert x.seen == QueryEvents(w.tables, a.stream);
    }
    hide Logs, KeyText, DecideKey, Fold;
  }

  lemma {:induction false} OnceStepStores(w: World, c: nat, stamps: Stamps)
    returns (s: StreamId, inputs: seq<EventInput>, receipt: Receipt)
    requires TablesOk(w.tables, w.history) && c in w.calls && CallOk(w.history, c, w.calls[c])
    requires w.calls[c].phase.OnceWriting? && w.calls[c].request.DecideOnce?
    requires var r := w.calls[c].request; RunOnce(w.tables, r.id, r.digest, r.decision, stamps).OnceApplied?
    ensures var now, x := OnOnce(w, c, stamps), w.calls[c];
            && inputs != [] && Gave(w.tables, x, s, inputs) && KeyedAs(x)
            && Stores(w.tables, now.tables, s, inputs, x.key, stamps, receipt)
            && now.calls[c].phase == Notifying(OnceResult(x.request.decision(Snapshot(w.tables)).result, true))
  {
    OnceCommitIs(w, c, stamps);
    s, inputs, receipt := OnceRows(w.tables, w.calls[c], stamps);
    hide *;
  }

  lemma OnceCommitIs(w: World, c: nat, stamps: Stamps)
    requires c in w.calls && w.calls[c].phase.OnceWriting? && w.calls[c].request.DecideOnce?
    requires var r := w.calls[c].request; RunOnce(w.tables, r.id, r.digest, r.decision, stamps).OnceApplied?
    ensures var now, r := OnOnce(w, c, stamps), w.calls[c].request;
            var attempt := RunOnce(w.tables, r.id, r.digest, r.decision, stamps);
            now.tables == attempt.tables && now.calls[c].phase == Notifying(OnceResult(attempt.result, true))
  {
    hide RunOnce, Snapshot;
  }

  lemma {:induction false} OnceRows(t: Tables, x: Call, stamps: Stamps)
    returns (s: StreamId, inputs: seq<EventInput>, receipt: Receipt)
    requires Dense(t) && x.request.DecideOnce? && x.key.None?
    requires RunOnce(t, x.request.id, x.request.digest, x.request.decision, stamps).OnceApplied?
    ensures var r := x.request;
            var attempt := RunOnce(t, r.id, r.digest, r.decision, stamps);
            && inputs != [] && Gave(t, x, s, inputs) && KeyedAs(x)
            && Stores(t, attempt.tables, s, inputs, None, stamps, receipt)
            && attempt.result == r.decision(Snapshot(t)).result
  {
    var r := x.request;
    OnceGives(t, r, stamps);
    OnceStores(t, r.id, r.digest, r.decision, stamps);
    var out := r.decision(Snapshot(t));
    s, inputs, receipt := out.stream, out.inputs, ReceiptOf(RunOnce(t, r.id, r.digest, r.decision, stamps).rows);
    hide Stores, Snapshot, RunOnce, ReceiptOf;
  }

  lemma OnceGives(t: Tables, r: Request, stamps: Stamps)
    requires r.DecideOnce? && RunOnce(t, r.id, r.digest, r.decision, stamps).OnceApplied?
    ensures r.decision(Snapshot(t)).OnceDecided? && r.decision(Snapshot(t)).inputs != []
  {
    hide Snapshot;
  }

  // ----- the id of a stream

  predicate IdChar(c: char) {
    c in "-._" || '0' <= c <= '9' || 'A' <= c <= 'Z' || 'a' <= c <= 'z'
  }

  /** A segment of an id holds letters, digits, dashes, dots and underscores, and is neither a dot nor two dots. */
  predicate IdSegment(s: string) {
    s != "" && (forall c :: c in s ==> IdChar(c)) && s != "." && s != ".."
  }

  lemma SegmentIs(s: string)
    ensures SafeSegment(s) <==> IdSegment(s)
  {
    forall c | c in s ensures SafeChar(c) <==> IdChar(c) {
    }
    assert forall i :: 0 <= i < |s| ==> s[i] in s;
  }

  lemma SegmentHasNoSlash(s: string)
    requires IdSegment(s)
    ensures '/' !in s
  {
  }

  /** An id of one part, and an id of two. */
  lemma {:induction false} SplitId(s: StreamId, parts: seq<string>)
    requires parts == Split(s, '/') && |parts| <= 2
    ensures |parts| == 1 ==> s == parts[0]
    ensures |parts| == 2 ==> |s| > |parts[0]| && s[|parts[0]|] == '/' && s[..|parts[0]|] == parts[0] && s[|parts[0]| + 1..] == parts[1]
  {
    JoinOfSplit(s, '/');
    if |parts| == 2 { assert parts[..1] == [parts[0]] && s == parts[0] + ['/'] + parts[1]; }
  }

  lemma {:induction false} TwoSegments(a: string, b: string)
    requires IdSegment(a) && IdSegment(b)
    ensures Split(a + ['/'] + b, '/') == [a, b]
  {
    SegmentHasNoSlash(a);
    SegmentHasNoSlash(b);
    SplitJoin(a, b, '/');
    SplitOne(a, '/');
    SplitOne(b, '/');
  }

  /** A stream id is one segment, or two with one slash between them. */
  lemma {:induction false} StreamIdIff(s: StreamId)
    ensures ValidStreamId(s) <==> var parts := Split(s, '/'); |parts| <= 2 && forall i :: 0 <= i < |parts| ==> IdSegment(parts[i])
  {
    var parts := Split(s, '/');
    SegmentIs(s);
    hide IdSegment, SafeSegment, Split;
    if SafeSegment(s) {
      SegmentHasNoSlash(s);
      SplitOne(s, '/');
    } else if i :| 0 <= i < |s| && s[i] == '/' && SafeSegment(s[..i]) && SafeSegment(s[i + 1..]) {
      SegmentIs(s[..i]);
      SegmentIs(s[i + 1..]);
      TwoSegments(s[..i], s[i + 1..]);
      assert s == s[..i] + ['/'] + s[i + 1..];
    } else if |parts| <= 2 {
      SplitId(s, parts);
      SegmentIs(parts[0]);
      if |parts| == 2 { SegmentIs(parts[1]); }
    }
  }
}
