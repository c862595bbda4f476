/**
 * The three tables that an append touches (`events`, `sequences`, `idempotency_claims`) and the two
 * write transactions over them. `RunAppend` and `RunOnce` give one `BEGIN IMMEDIATE` attempt as a
 * function of the tables. `SqliteBackend` runs the same attempt statement by statement, with a
 * rollback, and is proved equal to those functions.
 */
module EventTables {
  import opened Wrappers

  type StreamId = string
  type Key = string

  /** The stream that holds the claims of decideOnce, in the same table as every other claim. */
  const ONCE_STREAM: StreamId := "__decide_once_operations__"

  /** An event as a caller gives it. `body` stands for every member that the appender only copies. */
  datatype EventInput = EventInput(body: string, timestamp: Option<string>)

  /** What one run of `finalize` draws from the outside for one event: a uuid and a clock reading. */
  datatype Stamp = Stamp(id: string, now: string)

  /** The stamps of one run of `finalize`, by event index. */
  type Stamps = nat -> Stamp

  datatype Row = Row(stream: StreamId, sequence: nat, body: string, timestamp: string,
                     id: string, key: Option<Key>)

  /** The three columns that every success reports. */
  datatype Receipt = Receipt(sequences: seq<nat>, ids: seq<string>, timestamps: seq<string>)

  /** `events_json` is a row list for an append, and an envelope for decideOnce. */
  datatype Payload =
    | Events(rows: seq<Row>)
    | Decision(stream: StreamId, digest: string, result: string, rows: seq<Row>)

  datatype Claim = Claim(receipt: Receipt, payload: Payload)

  /** `events` is keyed by stream and then by sequence, its primary key. */
  datatype Tables = Tables(events: map<StreamId, map<nat, Row>>,
                           marks: map<StreamId, nat>,
                           claims: map<(StreamId, Key), Claim>)

  const EMPTY_TABLES := Tables(map[], map[], map[])

  function ReceiptOf(rows: seq<Row>): (r: Receipt)
    ensures |r.sequences| == |r.ids| == |r.timestamps| == |rows|
  {
    Receipt(seq(|rows|, i requires 0 <= i < |rows| => rows[i].sequence),
            seq(|rows|, i requires 0 <= i < |rows| => rows[i].id),
            seq(|rows|, i requires 0 <= i < |rows| => rows[i].timestamp))
  }

  /** The high-water mark of a stream: its `sequences` row, or 0. */
  function Mark(t: Tables, s: StreamId): nat {
    if s in t.marks then t.marks[s] else 0
  }

  /** The rows of one stream in `events`, by sequence. */
  function RowsOf(events: map<StreamId, map<nat, Row>>, s: StreamId): map<nat, Row> {
    if s in events then events[s] else map[]
  }

  // ----- reading a stream: SELECT ... WHERE streamId = ? ORDER BY sequence

  /** The rows below `hi`, in ascending order of their sequence. */
  function Scan(table: map<nat, Row>, hi: nat): seq<Row> {
    if hi == 0 then [] else Scan(table, hi - 1) + if hi - 1 in table then [table[hi - 1]] else []
  }

  ghost function UpperBound(q: set<nat>): (hi: nat)
    ensures forall x :: x in q ==> x < hi
  {
    if q == {} then 0
    else
      var x :| x in q;
      var hi := UpperBound(q - {x});
      assert forall y :: y in q ==> y == x || y in q - {x};
      if x < hi then hi else x + 1
  }

  ghost function Sorted(table: map<nat, Row>): seq<Row> {
    Scan(table, UpperBound(table.Keys))
  }

  ghost function QueryEvents(t: Tables, s: StreamId): (rows: seq<Row>) {
    Sorted(RowsOf(t.events, s))
  }

  /** Every stream that has a `sequences` row, with its events in order. */
  ghost function Snapshot(t: Tables): map<StreamId, seq<Row>> {
    map s | s in t.marks :: QueryEvents(t, s)
  }

  /** A table that holds exactly the sequences 1 to n, each under its own number. */
  ghost predicate DenseTo(table: map<nat, Row>, s: StreamId, n: nat) {
    && (forall q: nat :: q in table <==> 1 <= q <= n)
    && (forall q :: q in table ==> table[q].stream == s && table[q].sequence == q)
  }

  /** The sequences of each stream are exactly 1 to its high-water mark. */
  ghost predicate Dense(t: Tables) {
    forall s: StreamId :: DenseTo(RowsOf(t.events, s), s, Mark(t, s))
  }

  lemma {:induction false} DenseScan(table: map<nat, Row>, s: StreamId, n: nat, hi: nat)
    requires DenseTo(table, s, n)
    ensures |Scan(table, hi)| == if hi > n then n else if hi == 0 then 0 else hi - 1
    ensures forall i :: 0 <= i < |Scan(table, hi)| ==> Scan(table, hi)[i] == table[i + 1]
  {
    if hi > 0 {
      DenseScan(table, s, n, hi - 1);
    }
  }

  /** Reading a dense table gives the rows 1 to n in log order. */
  lemma {:induction false} DenseSorted(table: map<nat, Row>, s: StreamId, n: nat)
    requires DenseTo(table, s, n)
    ensures |Sorted(table)| == n
    ensures forall i :: 0 <= i < n ==> Sorted(table)[i] == table[i + 1]
  {
    assert n == 0 || n in table.Keys;
    DenseScan(table, s, n, UpperBound(table.Keys));
  }

  // ----- the append transaction

  datatype AppendRequest = AppendRequest(stream: StreamId, key: Option<Key>,
                                         inputs: seq<EventInput>, expected: Option<nat>)

  /** The rows that one run of `finalize(base)` builds. */
  function Finalize(stream: StreamId, key: Option<Key>, inputs: seq<EventInput>, base: nat,
                    stamps: Stamps): (rows: seq<Row>)
    ensures |rows| == |inputs|
  {
    seq(|inputs|, i requires 0 <= i < |inputs| =>
      Row(stream, base + i + 1, inputs[i].body, inputs[i].timestamp.GetOr(stamps(i).now),
          stamps(i).id, key))
  }

  /**
   * The rows are these events after a base, in the order in which they were given: each has the next sequence, its own body, its
   * given timestamp or else the reading of its clock, its uuid and the key of the call.
   */
  predicate AreRows(rows: seq<Row>, stream: StreamId, key: Option<Key>, inputs: seq<EventInput>, base: nat, stamps: Stamps) {
    && |rows| == |inputs|
    && forall i :: 0 <= i < |rows| ==>
         rows[i] == Row(stream, base + i + 1, inputs[i].body,
                        if inputs[i].timestamp.Some? then inputs[i].timestamp.value else stamps(i).now, stamps(i).id, key)
  }

  lemma FinalizeIs(stream: StreamId, key: Option<Key>, inputs: seq<EventInput>, base: nat, stamps: Stamps)
    ensures AreRows(Finalize(stream, key, inputs, base, stamps), stream, key, inputs, base, stamps)
  {
  }

  /** A row is in the `events` table under its own key. */
  predicate Holds(t: Tables, row: Row) {
    var table := RowsOf(t.events, row.stream);
    row.sequence in table && table[row.sequence] == row
  }

  predicate Stored(t: Tables, rows: seq<Row>) {
    forall i :: 0 <= i < |rows| ==> Holds(t, rows[i])
  }

  function InsertRows(table: map<nat, Row>, rows: seq<Row>): map<nat, Row> {
    if rows == [] then table
    else var last := rows[|rows| - 1]; InsertRows(table, rows[..|rows| - 1])[last.sequence := last]
  }

  /** True when a strict INSERT of one of the rows finds its key taken. */
  predicate Collides(table: map<nat, Row>, rows: seq<Row>) {
    exists i :: 0 <= i < |rows| && rows[i].sequence in table
  }

  /** The tables after the gate of `stream` moved and its rows went in. The claims stay. */
  function Grow(t: Tables, stream: StreamId, rows: seq<Row>): Tables {
    t.(events := t.events[stream := InsertRows(RowsOf(t.events, stream), rows)],
       marks := t.marks[stream := Mark(t, stream) + |rows|])
  }

  datatype Attempt =
    | Applied(tables: Tables, rows: seq<Row>)
    | GateConflict(expected: nat, actual: nat)
    | ClaimTaken
    | RowTaken

  function RunAppend(t: Tables, r: AppendRequest, stamps: Stamps): Attempt {
    var base := Mark(t, r.stream);
    var rows := Finalize(r.stream, r.key, r.inputs, base, stamps);
    if r.expected.Some? && r.expected.value != base then GateConflict(r.expected.value, base)
    else if r.key.Some? && (r.stream, r.key.value) in t.claims then ClaimTaken
    else if Collides(RowsOf(t.events, r.stream), rows) then RowTaken
    else
      var grown := Grow(t, r.stream, rows);
      Applied(
        if r.key.None? then grown
        else grown.(claims := t.claims[(r.stream, r.key.value) := Claim(ReceiptOf(rows), Events(rows))]),
        rows)
  }

  // ----- the decideOnce transaction

  datatype OnceDecision =
    | OnceThrew
    | OnceDecided(stream: StreamId, inputs: seq<EventInput>, result: string, expected: Option<nat>)

  /** A decideOnce closure is synchronous: it depends only on the streams that it reads. */
  type OnceClosure = map<StreamId, seq<Row>> -> OnceDecision

  datatype OnceAttempt =
    | OnceApplied(tables: Tables, rows: seq<Row>, result: string)
    | OnceHit(result: string)
    | OnceDigestConflict
    | OnceInvalid
    | OnceGateConflict(expected: nat, actual: nat)
    | OnceRowTaken

  /** The digest that a stored claim answers with. A row list has none, so no digest equals it. */
  function ClaimDigest(c: Claim): Option<string> {
    if c.payload.Decision? then Some(c.payload.digest) else None
  }

  /** The part of the transaction after the closure: the gate, the claim and the rows of a decision. */
  function WriteDecision(t: Tables, op: Key, digest: string, d: OnceDecision, stamps: Stamps): OnceAttempt
    requires d.OnceDecided?
  {
    var base := Mark(t, d.stream);
    var rows := Finalize(d.stream, None, d.inputs, base, stamps);
    if d.expected.Some? && d.expected.value != base then OnceGateConflict(d.expected.value, base)
    else if Collides(RowsOf(t.events, d.stream), rows) then OnceRowTaken
    else
      var claim := Claim(ReceiptOf(rows), Decision(d.stream, digest, d.result, rows));
      OnceApplied(Grow(t, d.stream, rows).(claims := t.claims[(ONCE_STREAM, op) := claim]), rows, d.result)
  }

  ghost function RunOnce(t: Tables, op: Key, digest: string, closure: OnceClosure, stamps: Stamps): OnceAttempt {
    if (ONCE_STREAM, op) in t.claims then
      var c := t.claims[(ONCE_STREAM, op)];
      if ClaimDigest(c) == Some(digest) then OnceHit(c.payload.result) else OnceDigestConflict
    else
      var d := closure(Snapshot(t));
      if d.OnceThrew? || d.stream == "" || d.inputs == [] then OnceInvalid
      else WriteDecision(t, op, digest, d, stamps)
  }

  // ----- what a commit does to the tables

  /** Rows that take the sequences after the high-water mark of their stream. */
  ghost predicate NextBlock(t: Tables, stream: StreamId, rows: seq<Row>) {
    forall i :: 0 <= i < |rows| ==> rows[i].stream == stream && rows[i].sequence == Mark(t, stream) + i + 1
  }

  lemma {:induction false} InsertedRows(table: map<nat, Row>, rows: seq<Row>, base: nat)
    requires forall i :: 0 <= i < |rows| ==> rows[i].sequence == base + i + 1
    ensures forall q: nat :: q in InsertRows(table, rows) <==> q in table || base < q <= base + |rows|
    ensures forall q :: q in InsertRows(table, rows) ==>
              InsertRows(table, rows)[q] == if base < q <= base + |rows| then rows[q - base - 1] else table[q]
  {
    if rows != [] {
      InsertedRows(table, rows[..|rows| - 1], base);
    }
  }

  /** The next block extends a dense table, and the ordered read of it. */
  lemma {:induction false} BlockDense(table: map<nat, Row>, s: StreamId, n: nat, rows: seq<Row>)
    requires DenseTo(table, s, n)
    requires forall i :: 0 <= i < |rows| ==> rows[i].stream == s && rows[i].sequence == n + i + 1
    ensures DenseTo(InsertRows(table, rows), s, n + |rows|)
    ensures Sorted(InsertRows(table, rows)) == Sorted(table) + rows
  {
    var table' := InsertRows(table, rows);
    InsertedRows(table, rows, n);
    hide InsertRows, Sorted;
    assert DenseTo(table', s, n + |rows|);
    DenseSorted(table, s, n);
    DenseSorted(table', s, n + |rows|);
    forall i | 0 <= i < n + |rows| ensures Sorted(table')[i] == (Sorted(table) + rows)[i] {
      assert i + 1 in table';
    }
  }

  /** A commit keeps the tables dense. */
  lemma {:induction false} GrowDense(t: Tables, stream: StreamId, rows: seq<Row>)
    requires Dense(t) && NextBlock(t, stream, rows)
    ensures Dense(Grow(t, stream, rows))
  {
    var t' := Grow(t, stream, rows);
    forall s ensures DenseTo(RowsOf(t'.events, s), s, Mark(t', s)) {
      assert DenseTo(RowsOf(t.events, s), s, Mark(t, s));
      if s == stream { BlockDense(RowsOf(t.events, stream), stream, Mark(t, stream), rows); }
    }
  }

  /** A commit stores its rows. */
  lemma {:induction false} GrowStores(t: Tables, stream: StreamId, rows: seq<Row>)
    requires NextBlock(t, stream, rows)
    ensures Stored(Grow(t, stream, rows), rows)
  {
    InsertedRows(RowsOf(t.events, stream), rows, Mark(t, stream));
    forall i | 0 <= i < |rows| ensures Holds(Grow(t, stream, rows), rows[i]) {
      assert rows[i].stream == stream;
    }
  }

  /** A commit appends its block at the end of one stream, and every other stream reads as before. */
  lemma {:induction false} GrowQuery(t: Tables, stream: StreamId, rows: seq<Row>, s: StreamId)
    requires Dense(t) && NextBlock(t, stream, rows)
    ensures QueryEvents(Grow(t, stream, rows), s) == QueryEvents(t, s) + if s == stream then rows else []
  {
    if s == stream {
      assert DenseTo(RowsOf(t.events, stream), stream, Mark(t, stream));
      BlockDense(RowsOf(t.events, stream), stream, Mark(t, stream), rows);
    } else {
      assert RowsOf(Grow(t, stream, rows).events, s) == RowsOf(t.events, s);
    }
  }

  lemma {:induction false} GrowSnapshot(t: Tables, stream: StreamId, rows: seq<Row>)
    requires Dense(t) && NextBlock(t, stream, rows)
    ensures Snapshot(Grow(t, stream, rows)) == Snapshot(t)[stream := QueryEvents(t, stream) + rows]
  {
    var now, want := Snapshot(Grow(t, stream, rows)), Snapshot(t)[stream := QueryEvents(t, stream) + rows];
    assert now.Keys == want.Keys;
    forall s | s in now ensures now[s] == want[s] {
      GrowQuery(t, stream, rows, s);
    }
  }

  /** The gate always gives a free slot: on dense tables no strict INSERT of a row collides. */
  lemma {:induction false} DenseNeverCollides(t: Tables, stream: StreamId, rows: seq<Row>)
    requires Dense(t) && NextBlock(t, stream, rows)
    ensures !Collides(RowsOf(t.events, stream), rows)
  {
    assert DenseTo(RowsOf(t.events, stream), stream, Mark(t, stream));
  }
}
