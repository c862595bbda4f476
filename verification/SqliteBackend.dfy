/** The backend that runs the write transactions statement by statement, and the loops around it. */
module SqliteBackend {
  import opened Wrappers
  import opened EventTables

  /** A transaction of another connection: an append, or a decideOnce with what its closure decides in its turn. */
  datatype Writer =
    | Appends(request: AppendRequest, stamps: Stamps)
    | Decides(op: Key, digest: string, decision: OnceDecision, stamps: Stamps)

  /** One attempt of the retry loop: what other connections run before it, and whether it is busy. */
  datatype Attempted = Attempted(others: seq<Writer>, stamps: Stamps, busy: bool)

  datatype Result = Stored(rows: seq<Row>) | Refused(attempt: Attempt) | BusyExhausted

  /** The tables after the transaction of another connection. One that does not commit rolls back. */
  ghost function AfterWriter(t: Tables, w: Writer): Tables {
    match w
    case Appends(request, stamps) =>
      var a := RunAppend(t, request, stamps);
      if a.Applied? then a.tables else t
    case Decides(op, digest, decision, stamps) =>
      var a := RunOnce(t, op, digest, Deciding(decision), stamps);
      if a.OnceApplied? then a.tables else t
  }

  /** A closure that decides this, whatever it reads. */
  function Deciding(decision: OnceDecision): OnceClosure {
    (streams: map<StreamId, seq<Row>>) => decision
  }

  ghost function RunOthers(t: Tables, others: seq<Writer>): Tables
    decreases |others|
  {
    if others == [] then t else RunOthers(AfterWriter(t, others[0]), others[1..])
  }

  /** The retry loop as a function: the tables at its end, and what the caller gets. */
  ghost function Retry(t: Tables, r: AppendRequest, plan: seq<Attempted>): (Tables, Result)
    decreases |plan|
  {
    if plan == [] then (t, BusyExhausted)
    else
      var now := RunOthers(t, plan[0].others);
      if plan[0].busy then Retry(now, r, plan[1..])
      else
        var a := RunAppend(now, r, plan[0].stamps);
        if a.Applied? then (a.tables, Stored(a.rows)) else (now, Refused(a))
  }

  lemma {:induction false} OthersKeepDense(t: Tables, others: seq<Writer>)
    requires Dense(t)
    ensures Dense(RunOthers(t, others))
    decreases |others|
  {
    if others != [] {
      WriterKeepsDense(t, others[0]);
      OthersKeepDense(AfterWriter(t, others[0]), others[1..]);
    }
  }

  lemma {:induction false} WriterKeepsDense(t: Tables, w: Writer)
    requires Dense(t)
    ensures Dense(AfterWriter(t, w))
  {
    match w
    case Appends(request, stamps) =>
      if RunAppend(t, request, stamps).Applied? { AppliedKeepsDense(t, request, stamps); }
    case Decides(op, digest, decision, stamps) =>
      var a := RunOnce(t, op, digest, Deciding(decision), stamps);
      if a.OnceApplied? { GrownIsDense(t, decision.stream, a.rows, a.tables); }
  }

  /** The claims that a transaction writes are no matter for the order of the rows. */
  lemma {:induction false} GrownIsDense(t: Tables, stream: StreamId, rows: seq<Row>, after: Tables)
    requires Dense(t) && NextBlock(t, stream, rows)
    requires after.events == Grow(t, stream, rows).events && after.marks == Grow(t, stream, rows).marks
    ensures Dense(after)
  {
    var g := Grow(t, stream, rows);
    GrowDense(t, stream, rows);
    forall s ensures DenseTo(RowsOf(after.events, s), s, Mark(after, s)) {
      assert DenseTo(RowsOf(g.events, s), s, Mark(g, s));
    }
  }

  lemma {:induction false} AppliedKeepsDense(t: Tables, r: AppendRequest, stamps: Stamps)
    requires Dense(t) && RunAppend(t, r, stamps).Applied?
    ensures Dense(RunAppend(t, r, stamps).tables)
    ensures EventTables.Stored(RunAppend(t, r, stamps).tables, RunAppend(t, r, stamps).rows)
  {
    var a := RunAppend(t, r, stamps);
    var g := Grow(t, r.stream, a.rows);
    GrownIsDense(t, r.stream, a.rows, a.tables);
    GrowStores(t, r.stream, a.rows);
    forall i | 0 <= i < |a.rows| ensures Holds(a.tables, a.rows[i]) {
      assert Holds(g, a.rows[i]);
    }
  }

  /** Whatever other writers commit between busy attempts, a success reports rows that are stored. */
  lemma {:induction false} RetryReportsStoredRows(t: Tables, r: AppendRequest, plan: seq<Attempted>)
    requires Dense(t)
    ensures var (t', result) := Retry(t, r, plan);
            && Dense(t')
            && (result.Stored? ==> EventTables.Stored(t', result.rows) && |result.rows| == |r.inputs|)
            && (result.Refused? ==> !result.attempt.RowTaken?)
    decreases |plan|
  {
    if plan != [] {
      var now := RunOthers(t, plan[0].others);
      OthersKeepDense(t, plan[0].others);
      if plan[0].busy { RetryReportsStoredRows(now, r, plan[1..]); }
      else {
        if RunAppend(now, r, plan[0].stamps).Applied? { AppliedKeepsDense(now, r, plan[0].stamps); }
        DenseNeverCollides(now, r.stream, Finalize(r.stream, r.key, r.inputs, Mark(now, r.stream), plan[0].stamps));
      }
    }
  }

  function InsertInto(t: Tables, stream: StreamId, rows: seq<Row>): Tables {
    t.(events := t.events[stream := InsertRows(RowsOf(t.events, stream), rows)])
  }

  /** The connection. `tables` is the database that it writes. */
  class Backend {
    var tables: Tables

    constructor ()
      ensures tables == EMPTY_TABLES
    {
      tables := EMPTY_TABLES;
    }

    /** The strict INSERTs of one transaction, in order. It stops at the first key that is taken. */
    method InsertAll(stream: StreamId, rows: seq<Row>, ghost base: nat) returns (ok: bool)
      requires forall i :: 0 <= i < |rows| ==> rows[i].sequence == base + i + 1
      modifies this
      ensures ok <==> !Collides(RowsOf(old(tables).events, stream), rows)
      ensures tables == if ok then InsertInto(old(tables), stream, rows) else old(tables)
    {
      var start := RowsOf(tables.events, stream);
      var table := start;
      for i := 0 to |rows|
        invariant tables == old(tables)
        invariant forall k :: 0 <= k < i ==> rows[k].sequence !in start
        invariant table == InsertRows(start, rows[..i])
        invariant forall q :: q in table <==> q in start || base < q <= base + i
      {
        assert rows[..i + 1][..i] == rows[..i];
        if rows[i].sequence in table {
          return false;
        }
        table := table[rows[i].sequence := rows[i]];
      }
      assert rows[..|rows|] == rows;
      tables := tables.(events := tables.events[stream := table]);
      ok := true;
    }

    /** The gate: it checks the expected sequence, advances the mark by `n`, and gives the old one. */
    method AllocateSequence(stream: StreamId, n: nat, expected: Option<nat>) returns (base: nat, ok: bool)
      modifies this
      ensures base == Mark(old(tables), stream)
      ensures ok <==> (expected.Some? ==> expected.value == base)
      ensures tables == if ok then old(tables).(marks := old(tables).marks[stream := base + n]) else old(tables)
    {
      base := Mark(tables, stream);
      ok := expected.None? || expected.value == base;
      if ok {
        tables := tables.(marks := tables.marks[stream := base + n]);
      }
    }

    /**
     * One `BEGIN IMMEDIATE` attempt of an append: the gate, `finalize`, the claim and the rows. Any
     * refusal rolls back what the statements before it wrote.
     */
    method AppendTransaction(r: AppendRequest, stamps: Stamps) returns (attempt: Attempt)
      modifies this
      ensures attempt == RunAppend(old(tables), r, stamps)
      ensures tables == if attempt.Applied? then attempt.tables else old(tables)
    {
      hide InsertRows, Collides;
      var begin := tables;
      var base, ok := AllocateSequence(r.stream, |r.inputs|, r.expected);
      if !ok {
        return GateConflict(r.expected.value, base);
      }
      var rows := Finalize(r.stream, r.key, r.inputs, base, stamps);
      if r.key.Some? {
        if (r.stream, r.key.value) in tables.claims {
          tables := begin;
          return ClaimTaken;
        }
        tables := tables.(claims := tables.claims[(r.stream, r.key.value) := Claim(ReceiptOf(rows), Events(rows))]);
      }
      ok := InsertAll(r.stream, rows, base);
      if !ok {
        tables := begin;
        return RowTaken;
      }
      assert tables.events == Grow(begin, r.stream, rows).events && tables.marks == Grow(begin, r.stream, rows).marks;
      return Applied(tables, rows);
    }

    method WriteOnce(op: Key, digest: string, d: OnceDecision, stamps: Stamps) returns (attempt: OnceAttempt)
      requires d.OnceDecided?
      modifies this
      ensures attempt == WriteDecision(old(tables), op, digest, d, stamps)
      ensures tables == if attempt.OnceApplied? then attempt.tables else old(tables)
    {
      hide InsertRows, Collides;
      var begin := tables;
      var base, ok := AllocateSequence(d.stream, |d.inputs|, d.expected);
      if !ok {
        return OnceGateConflict(d.expected.value, base);
      }
      var rows := Finalize(d.stream, None, d.inputs, base, stamps);
      var claim := Claim(ReceiptOf(rows), Decision(d.stream, digest, d.result, rows));
      tables := tables.(claims := tables.claims[(ONCE_STREAM, op) := claim]);
      ok := InsertAll(d.stream, rows, base);
      if !ok {
        tables := begin;
        return OnceRowTaken;
      }
      assert tables.events == Grow(begin, d.stream, rows).events && tables.marks == Grow(begin, d.stream, rows).marks;
      return OnceApplied(tables, rows, d.result);
    }

    /**
     * One attempt of decideOnce: the claim lookup comes first, so a racing retry returns before the
     * closure counts. `decided` is what the closure returns on the reads of this transaction.
     */
    method OnceTransaction(op: Key, digest: string, ghost closure: OnceClosure, decided: OnceDecision, stamps: Stamps)
      returns (attempt: OnceAttempt)
      requires decided == closure(Snapshot(tables))
      modifies this
      ensures attempt == RunOnce(old(tables), op, digest, closure, stamps)
      ensures tables == if attempt.OnceApplied? then attempt.tables else old(tables)
    {
      if (ONCE_STREAM, op) in tables.claims {
        var claim := tables.claims[(ONCE_STREAM, op)];
        if ClaimDigest(claim) == Some(digest) {
          return OnceHit(claim.payload.result);
        }
        return OnceDigestConflict;
      }
      if decided.OnceThrew? || decided.stream == "" || decided.inputs == [] {
        return OnceInvalid;
      }
      attempt := WriteOnce(op, digest, decided, stamps);
    }

    /** The transactions of other connections that run before an attempt. */
    method Interfere(others: seq<Writer>)
      modifies this
      ensures tables == RunOthers(old(tables), others)
    {
      for i := 0 to |others|
        invariant RunOthers(tables, others[i..]) == RunOthers(old(tables), others)
      {
        assert others[i..][1..] == others[i + 1..];
        match others[i] {
          case Appends(request, stamps) =>
            var _ := AppendTransaction(request, stamps);
          case Decides(op, digest, decision, stamps) =>
            var _ := OnceTransaction(op, digest, Deciding(decision), decision, stamps);
        }
      }
    }

    /** `atomicAppend` with the `persisted` that the caller captures: each run of `finalize` replaces it. */
    method AtomicAppend(r: AppendRequest, plan: seq<Attempted>) returns (result: Result)
      requires |plan| == 5
      modifies this
      ensures (tables, result) == Retry(old(tables), r, plan)
    {
      var persisted: seq<Row> := [];
      for i := 0 to 5
        invariant Retry(tables, r, plan[i..]) == Retry(old(tables), r, plan)
      {
        assert plan[i..][1..] == plan[i + 1..];
        Interfere(plan[i].others);
        persisted := Finalize(r.stream, r.key, r.inputs, Mark(tables, r.stream), plan[i].stamps);
        if !plan[i].busy {
          var attempt := AppendTransaction(r, plan[i].stamps);
          return if attempt.Applied? then Stored(persisted) else Refused(attempt);
        }
      }
      return BusyExhausted;
    }
  }
}
