/**
 * The append protocol of the event appender as a step system. Any number of appenders, each with any
 * number of calls in flight, share one set of tables. Each action is one stretch of code between two
 * points where another caller can run: the fold of a stream, the run of a closure, the re-read of a
 * tail, the claim lookup, one transaction attempt, the re-read after a lost key race.
 *
 * `history` lists the commits in commit order. It is a ghost: no step reads it. `Run(actions)` is the
 * world after a schedule, so a statement about every `actions` holds in every interleaving. An action
 * that is not enabled changes nothing. The per-stream mutex is not part of this module: it only takes
 * schedules away, and the theorems hold without it.
 */
module AppendProtocol {
  import opened Texts
  import opened Wrappers
  import opened EventTables

  type State = string

  datatype Reducer = Reducer(initial: State, apply: (State, Row) -> State)

  datatype Produced = Produced(inputs: seq<EventInput>) | Threw

  /** A closure of `decide` or `withSession`. `tape` stands for what the services that it calls answer. */
  type Closure = (State, nat, nat) -> Produced

  datatype Request =
    | Append(stream: StreamId, inputs: seq<EventInput>, key: Option<Key>, expected: Option<nat>)
    | Decide(stream: StreamId, reducerId: string, reducer: Option<Reducer>, closure: Closure,
             operation: Option<string>, enforce: bool, session: bool, allowNonIdempotent: bool)
    | DecideOnce(id: Key, digest: string, decision: OnceClosure)

  datatype Reason =
    | IoError | SequenceConflict(expected: nat, actual: nat) | StorageBusy | IdempotencyClaimed
    | ConcurrencyError(expected: nat, actual: nat) | ClosureFailed | DigestMismatch
    | UnknownReducer | InvalidSession

  datatype Outcome =
    | Committed(receipt: Receipt)
    | CacheHit(receipt: Receipt)
    | NoOp
    | OnceResult(result: string, first: bool)
    | Failed(reason: Reason)

  datatype Phase =
    | Idle
    | Deciding
    | Rechecking
    | Claiming(append: AppendRequest)
    | Writing(append: AppendRequest, attempt: nat)
    | Racing(append: AppendRequest)
    | OnceWriting(attempt: nat)
    | Notifying(outcome: Outcome)
    | Done(outcome: Outcome)

  /**
   * One call. `key` is its idempotency key. `seen` and `tape` are what its closure worked from. The
   * last three members are ghosts: the length of the history at its fold and at its tail re-read, and
   * the commit that its outcome reports.
   */
  datatype Call = Call(request: Request, phase: Phase, key: Option<Key>, seen: seq<Row>, tape: nat,
                       foldedAt: nat, checkedAt: nat, commit: nat)

  /** One commit. */
  datatype Entry = Entry(call: nat, request: Request, stream: StreamId, rows: seq<Row>, key: Option<Key>,
                         result: string, tape: nat, stamps: Stamps)

  datatype World = World(tables: Tables, calls: map<nat, Call>, history: seq<Entry>, notified: seq<nat>)

  datatype Action =
    | Invoke(call: nat, request: Request)
    | FoldStream(call: nat)
    | RunClosure(call: nat, tape: nat, uuid: string)
    | CheckTail(call: nat)
    | LookupClaim(call: nat)
    | BusyAttempt(call: nat)
    | Transact(call: nat, stamps: Stamps)
    | Reread(call: nat)
    | Fault(call: nat)
    | Notify(call: nat)

  const MAX_ATTEMPTS: nat := 5

  const START := World(EMPTY_TABLES, map[], [], [])

  // ----- the code between two suspension points

  function Fold(reducer: Reducer, rows: seq<Row>): State {
    if rows == [] then reducer.initial
    else reducer.apply(Fold(reducer, rows[..|rows| - 1]), rows[|rows| - 1])
  }

  function TailVersion(rows: seq<Row>): nat {
    if rows == [] then 0 else rows[|rows| - 1].sequence
  }

  predicate SafeChar(c: char) {
    'a' <= c <= 'z' || 'A' <= c <= 'Z' || '0' <= c <= '9' || c == '.' || c == '_' || c == '-'
  }

  predicate SafeSegment(s: string) {
    s != "" && s != "." && s != ".." && forall i :: 0 <= i < |s| ==> SafeChar(s[i])
  }

  predicate ValidStreamId(s: StreamId) {
    SafeSegment(s) || exists i :: 0 <= i < |s| && s[i] == '/' && SafeSegment(s[..i]) && SafeSegment(s[i + 1..])
  }

  function DecideKey(r: Request, uuid: string): Key
    requires r.Decide?
  {
    match r.operation
    case Some(op) => r.stream + ":" + r.reducerId + ":" + op
    case None =>
      (if r.session then "with-session:" else "decide:") + r.stream + ":" + r.reducerId + ":" + uuid
  }

  /** `translateDecideResult`: decide and withSession throw a typed error where an append reports one. */
  function Translate(r: Request, o: Outcome): Outcome {
    if r.Decide? && o.Failed? && o.reason.SequenceConflict?
    then Failed(ConcurrencyError(o.reason.expected, o.reason.actual))
    else o
  }

  /** The entry checks of `appendSqliteLocked`. */
  predicate WellFormed(a: AppendRequest) {
    ValidStreamId(a.stream) && a.inputs != [] && a.key != Some("")
  }

  function OnInvoke(r: Request): Call {
    var phase :=
      match r
      case Append(stream, inputs, key, expected) => Claiming(AppendRequest(stream, key, inputs, expected))
      case Decide(_, _, reducer, _, operation, _, session, allow) =>
        if session && operation.None? && !allow then Done(Failed(InvalidSession))
        else if reducer.None? then Done(Failed(UnknownReducer))
        else Idle
      case DecideOnce(id, digest, _) =>
        if id == "" || digest == "" then Done(Failed(ClosureFailed)) else Idle;
    Call(r, phase, if r.Append? then r.key else None, [], 0, 0, 0, 0)
  }

  function OnClosure(x: Call, tape: nat, uuid: string): Call
    requires x.request.Decide? && x.request.reducer.Some?
  {
    var r := x.request;
    var version := TailVersion(x.seen);
    var out := r.closure(Fold(r.reducer.value, x.seen), version, tape);
    match out
    case Threw => x.(phase := Done(Failed(ClosureFailed)))
    case Produced(inputs) =>
      if inputs == [] then x.(tape := tape, phase := if r.enforce then Rechecking else Done(NoOp))
      else
        var key := DecideKey(r, uuid);
        x.(tape := tape, key := Some(key),
           phase := Claiming(AppendRequest(r.stream, Some(key), inputs, Some(version))))
  }

  /** The tail re-read of an empty decision. */
  function OnCheck(x: Call, tail: nat, now: nat): Call {
    var version := TailVersion(x.seen);
    if tail == version then x.(phase := Done(NoOp), checkedAt := now)
    else x.(phase := Done(Failed(ConcurrencyError(version, tail))))
  }

  /** A claim as an append reads it. `None` when its stored events are no list, which makes the copy throw. */
  function HitOf(c: Claim): Option<Receipt> {
    if c.payload.Events? then Some(c.receipt) else None
  }

  function OnLookup(x: Call, claims: map<(StreamId, Key), Claim>, h: seq<Entry>): Call {
    if x.phase.Claiming? then
      var a := x.phase.append;
      if !WellFormed(a) then x.(phase := Done(Failed(IoError)))
      else if a.key.Some? && (a.stream, a.key.value) in claims then
        match HitOf(claims[(a.stream, a.key.value)])
        case Some(receipt) => x.(phase := Done(CacheHit(receipt)),
                                 commit := CommitOf(h, (a.stream, a.key.value)))
        case None => x.(phase := Done(Failed(IoError)))
      else x.(phase := Writing(a, 1))
    else if x.phase.Idle? && x.request.DecideOnce? then
      var slot := (ONCE_STREAM, x.request.id);
      if slot in claims then
        if ClaimDigest(claims[slot]) == Some(x.request.digest)
        then x.(phase := Done(OnceResult(claims[slot].payload.result, false)),
                commit := CommitOf(h, slot))
        else x.(phase := Done(Failed(DigestMismatch)))
      else x.(phase := OnceWriting(1))
    else x
  }

  /**
   * A busy attempt rolls back. What a `finalize` run captured before is replaced by the run of the attempt that succeeds,
   * as `SqliteBackend` proves of the retry loop.
   */
  function OnBusy(x: Call): Call {
    match x.phase
    case Writing(a, attempt) =>
      x.(phase := if attempt < MAX_ATTEMPTS then Writing(a, attempt + 1) else Done(Failed(StorageBusy)))
    case OnceWriting(attempt) =>
      x.(phase := if attempt < MAX_ATTEMPTS then OnceWriting(attempt + 1) else Done(Failed(StorageBusy)))
    case _ => x
  }

  /** An append attempt that rolled back for a reason other than a busy lock. */
  function OnRefused(x: Call, attempt: Attempt): Call
    requires x.phase.Writing? && !attempt.Applied?
  {
    match attempt
    case GateConflict(expected, actual) =>
      x.(phase := Done(Translate(x.request, Failed(SequenceConflict(expected, actual)))))
    case ClaimTaken => x.(phase := Racing(x.phase.append))
    case RowTaken => x.(phase := Done(Failed(IoError)))
  }

  /** One attempt that is not busy, of an append. `persisted` is what its own `finalize` run captured. */
  ghost function OnAppend(w: World, c: nat, stamps: Stamps): World
    requires c in w.calls && w.calls[c].phase.Writing?
  {
    var x := w.calls[c];
    var a := x.phase.append;
    var attempt := RunAppend(w.tables, a, stamps);
    if attempt.Applied? then
      var persisted := Finalize(a.stream, a.key, a.inputs, Mark(w.tables, a.stream), stamps);
      World(attempt.tables,
            w.calls[c := x.(phase := Notifying(Committed(ReceiptOf(persisted))), commit := |w.history|)],
            w.history + [Entry(c, x.request, a.stream, attempt.rows, a.key, "", x.tape, stamps)],
            w.notified)
    else w.(calls := w.calls[c := OnRefused(x, attempt)])
  }

  /** A decideOnce attempt that found a claim, or rolled back for a reason other than a busy lock. */
  function OnOnceRefused(x: Call, attempt: OnceAttempt, h: seq<Entry>): Call
    requires x.request.DecideOnce? && !attempt.OnceApplied?
  {
    match attempt
    case OnceHit(result) =>
      x.(phase := Done(OnceResult(result, false)), commit := CommitOf(h, (ONCE_STREAM, x.request.id)))
    case OnceDigestConflict => x.(phase := Done(Failed(DigestMismatch)))
    case OnceInvalid => x.(phase := Done(Failed(ClosureFailed)))
    case OnceGateConflict(expected, actual) => x.(phase := Done(Failed(ConcurrencyError(expected, actual))))
    case OnceRowTaken => x.(phase := Done(Failed(IoError)))
  }

  ghost function OnOnce(w: World, c: nat, stamps: Stamps): World
    requires c in w.calls && w.calls[c].phase.OnceWriting? && w.calls[c].request.DecideOnce?
  {
    var x := w.calls[c];
    var r := x.request;
    var attempt := RunOnce(w.tables, r.id, r.digest, r.decision, stamps);
    if attempt.OnceApplied? then
      World(attempt.tables,
            w.calls[c := x.(phase := Notifying(OnceResult(attempt.result, true)), commit := |w.history|)],
            w.history + [Entry(c, r, r.decision(Snapshot(w.tables)).stream, attempt.rows, None, attempt.result, 0, stamps)],
            w.notified)
    else w.(calls := w.calls[c := OnOnceRefused(x, attempt, w.history)])
  }

  /** `translateAtomicAppendError` after a UNIQUE failure on the claims: the claim of the winner, if it reads. */
  function OnReread(x: Call, claims: map<(StreamId, Key), Claim>, h: seq<Entry>): Call
    requires x.phase.Racing?
  {
    var a := x.phase.append;
    if a.key.Some? && (a.stream, a.key.value) in claims
       && HitOf(claims[(a.stream, a.key.value)]).Some?
    then x.(phase := Done(CacheHit(HitOf(claims[(a.stream, a.key.value)]).value)),
            commit := CommitOf(h, (a.stream, a.key.value)))
    else x.(phase := Done(Failed(IdempotencyClaimed)))
  }

  /** What an action that writes no table makes of its call. */
  ghost function Advance(w: World, action: Action): Call
    requires action.call in w.calls
  {
    var x := w.calls[action.call];
    match action
    case FoldStream(_) =>
      if x.phase.Idle? && x.request.Decide? then
        x.(phase := Deciding, seen := QueryEvents(w.tables, x.request.stream), foldedAt := |w.history|)
      else x
    case RunClosure(_, tape, uuid) =>
      if x.phase.Deciding? && x.request.Decide? && x.request.reducer.Some? then OnClosure(x, tape, uuid) else x
    case CheckTail(_) =>
      if x.phase.Rechecking? && x.request.Decide? then OnCheck(x, Mark(w.tables, x.request.stream), |w.history|) else x
    case LookupClaim(_) => OnLookup(x, w.tables.claims, w.history)
    case BusyAttempt(_) => OnBusy(x)
    case Reread(_) => if x.phase.Racing? then OnReread(x, w.tables.claims, w.history) else x
    case Fault(_) => if x.phase.Done? || x.phase.Notifying? then x else x.(phase := Done(Failed(IoError)))
    case _ => x
  }

  ghost function Step(w: World, action: Action): World {
    var c := action.call;
    if action.Invoke? then
      if c in w.calls then w else w.(calls := w.calls[c := OnInvoke(action.request)])
    else if c !in w.calls then w
    else
      var x := w.calls[c];
      if action.Transact? then
        if x.phase.Writing? then OnAppend(w, c, action.stamps)
        else if x.phase.OnceWriting? && x.request.DecideOnce? then OnOnce(w, c, action.stamps)
        else w
      else if action.Notify? then
        if x.phase.Notifying? then
          w.(calls := w.calls[c := x.(phase := Done(x.phase.outcome))], notified := w.notified + [c])
        else w
      else w.(calls := w.calls[c := Advance(w, action)])
  }

  ghost function Run(actions: seq<Action>): World {
    if actions == [] then START else Step(Run(actions[..|actions| - 1]), actions[|actions| - 1])
  }

  // ----- the text of a key

  /** The parts of the key of a decision: with an operation id the stream, the reducer and that id, and else a fresh uuid. */
  function KeyParts(r: Request, uuid: string): (parts: seq<string>)
    requires r.Decide?
    ensures parts != []
  {
    if r.operation.Some? then [r.stream, r.reducerId, r.operation.value]
    else [if r.session then "with-session" else "decide", r.stream, r.reducerId, uuid]
  }

  function KeyText(r: Request, uuid: string): Key
    requires r.Decide?
  {
    Join(KeyParts(r, uuid), ':')
  }

  lemma {:induction false} KeyIsItsParts(r: Request, uuid: string)
    requires r.Decide?
    ensures DecideKey(r, uuid) == KeyText(r, uuid)
  {
    if r.operation.Some? {
      JoinThree(r.stream, r.reducerId, r.operation.value);
    } else {
      JoinFour(if r.session then "with-session" else "decide", r.stream, r.reducerId, uuid);
    }
  }

  lemma {:induction false} JoinThree(a: string, b: string, c: string)
    ensures Join([a, b, c], ':') == a + ":" + b + ":" + c
  {
    var p := [a, b, c];
    assert p[..2] == [a, b] && [a, b][..1] == [a];
    assert Join([a, b], ':') == a + [':'] + b;
  }

  lemma {:induction false} JoinFour(a: string, b: string, c: string, d: string)
    ensures Join([a, b, c, d], ':') == a + ":" + b + ":" + c + ":" + d
  {
    JoinThree(a, b, c);
    assert [a, b, c, d][..3] == [a, b, c];
  }

  // ----- the sequential specification: a list of atomic decisions

  function LogOf(logs: map<StreamId, seq<Row>>, s: StreamId): seq<Row> {
    if s in logs then logs[s] else []
  }

  /** The streams after a list of commits: each one appends its block to one stream. */
  function Logs(history: seq<Entry>): map<StreamId, seq<Row>> {
    if history == [] then map[]
    else
      var e := history[|history| - 1];
      var logs := Logs(history[..|history| - 1]);
      logs[e.stream := LogOf(logs, e.stream) + e.rows]
  }

  function SlotOf(e: Entry): Option<(StreamId, Key)> {
    if e.request.DecideOnce? then Some((ONCE_STREAM, e.request.id))
    else match e.key
      case Some(k) => Some((e.stream, k))
      case None => None
  }

  function ClaimOf(e: Entry): Claim {
    Claim(ReceiptOf(e.rows),
          if e.request.DecideOnce? then Decision(e.stream, e.request.digest, e.result, e.rows) else Events(e.rows))
  }

  /** The claim table after a list of commits. */
  function Claims(history: seq<Entry>): map<(StreamId, Key), Claim> {
    if history == [] then map[]
    else
      var e := history[|history| - 1];
      var claims := Claims(history[..|history| - 1]);
      match SlotOf(e)
      case Some(slot) => claims[slot := ClaimOf(e)]
      case None => claims
  }

  /** The commit that holds a claim. */
  function CommitOf(history: seq<Entry>, slot: (StreamId, Key)): nat {
    if history == [] then 0
    else if SlotOf(history[|history| - 1]) == Some(slot) then |history| - 1
    else CommitOf(history[..|history| - 1], slot)
  }

  /**
   * One atomic decision, run alone on the streams and claims that the commits before it left: it reads
   * the whole log of its stream, decides, and appends what it decided, under a key that nobody holds.
   */
  ghost predicate Atomic(e: Entry, before: seq<Entry>) {
    var logs := Logs(before);
    var log := LogOf(logs, e.stream);
    && e.rows != []
    && (SlotOf(e).Some? ==> SlotOf(e).value !in Claims(before))
    && match e.request
       case Append(stream, inputs, key, expected) =>
         && e.stream == stream && e.key == key
         && (expected.Some? ==> expected.value == |log|)
         && AreRows(e.rows, stream, key, inputs, |log|, e.stamps)
       case Decide(stream, _, reducer, closure, operation, _, _, _) =>
         && e.stream == stream && e.key.Some? && reducer.Some?
         && (operation.Some? ==> e.key.value == KeyText(e.request, ""))
         && var out := closure(Fold(reducer.value, log), |log|, e.tape);
            out.Produced? && AreRows(e.rows, stream, e.key, out.inputs, |log|, e.stamps)
       case DecideOnce(_, _, decision) =>
         && e.key.None?
         && var out := decision(logs);
            && out.OnceDecided? && e.stream == out.stream && e.result == out.result
            && (out.expected.Some? ==> out.expected.value == |log|)
            && AreRows(e.rows, e.stream, None, out.inputs, |log|, e.stamps)
  }

  /** A sequential run: each decision ran atomically after the ones before it. */
  ghost predicate Sequential(history: seq<Entry>) {
    history == [] || (Sequential(history[..|history| - 1]) && Atomic(history[|history| - 1], history[..|history| - 1]))
  }
}
