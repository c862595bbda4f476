/**
 * What one call does when no other call runs between its steps, from any state that a schedule can reach: its exact outcome, and
 * what it stores. An append, a decision and a once-only decision each have their theorem.
 */
module AppendCalls {
  import opened Wrappers
  import opened EventTables
  import opened AppendProtocol
  import opened AppendSafety
  import opened AppendTheorems
  import opened CommittedRows

  // ----- one call alone

  /** The steps of one call. A step that its kind of call does not have changes nothing. */
  function AloneSteps(c: nat, r: Request, tape: nat, uuid: string, stamps: Stamps): seq<Action> {
    [Invoke(c, r), FoldStream(c), RunClosure(c, tape, uuid), CheckTail(c), LookupClaim(c), Transact(c, stamps), Notify(c)]
  }

  ghost function Alone(w: World, c: nat, r: Request, tape: nat, uuid: string, stamps: Stamps): World {
    Step(Step(Step(Step(Step(Step(Step(w, Invoke(c, r)), FoldStream(c)), RunClosure(c, tape, uuid)), CheckTail(c)),
                   LookupClaim(c)), Transact(c, stamps)), Notify(c))
  }

  lemma {:induction false} RunsAlone(actions: seq<Action>, c: nat, r: Request, tape: nat, uuid: string, stamps: Stamps)
    ensures Run(actions + AloneSteps(c, r, tape, uuid, stamps)) == Alone(Run(actions), c, r, tape, uuid, stamps)
  {
    var steps := AloneSteps(c, r, tape, uuid, stamps);
    hide Run, Step;
    RunSteps(actions, steps, 7);
    RunSteps(actions, steps, 6);
    RunSteps(actions, steps, 5);
    RunSteps(actions, steps, 4);
    RunSteps(actions, steps, 3);
    RunSteps(actions, steps, 2);
    RunSteps(actions, steps, 1);
    assert actions + steps[..0] == actions && steps[..7] == steps;
  }

  lemma {:induction false} RunSteps(actions: seq<Action>, steps: seq<Action>, n: nat)
    requires 0 < n <= |steps|
    ensures Run(actions + steps[..n]) == Step(Run(actions + steps[..n - 1]), steps[n - 1])
  {
    assert actions + steps[..n] == (actions + steps[..n - 1]) + [steps[n - 1]];
    RunOneMore(actions + steps[..n - 1], steps[n - 1]);
  }

  /** What the lookup of a taken key answers an append: the receipt of the claim, or an error if it is of a once-only decision. */
  function Taken(claim: Claim): Outcome {
    if claim.payload.Events? then CacheHit(claim.receipt) else Failed(IoError)
  }

  lemma StepTouches(w: World, action: Action, d: nat)
    requires action.call != d
    ensures d in Step(w, action).calls <==> d in w.calls
    ensures d in w.calls ==> Step(w, action).calls[d] == w.calls[d]
  {
  }

  /** The steps of one call leave every other call as it is. */
  lemma {:induction false} AloneTouches(actions: seq<Action>, c: nat, r: Request, tape: nat, uuid: string, stamps: Stamps, d: nat)
    requires d != c
    ensures var w, now := Run(actions), Run(actions + AloneSteps(c, r, tape, uuid, stamps));
            (d in now.calls <==> d in w.calls) && (d in w.calls ==> now.calls[d] == w.calls[d])
  {
    RunsAlone(actions, c, r, tape, uuid, stamps);
    hide Run, Step;
    var w := Run(actions);
    StepTouches(w, Invoke(c, r), d);
    var w1 := Step(w, Invoke(c, r));
    StepTouches(w1, FoldStream(c), d);
    var w2 := Step(w1, FoldStream(c));
    StepTouches(w2, RunClosure(c, tape, uuid), d);
    var w3 := Step(w2, RunClosure(c, tape, uuid));
    StepTouches(w3, CheckTail(c), d);
    var w4 := Step(w3, CheckTail(c));
    StepTouches(w4, LookupClaim(c), d);
    var w5 := Step(w4, LookupClaim(c));
    StepTouches(w5, Transact(c, stamps), d);
    StepTouches(Step(w5, Transact(c, stamps)), Notify(c), d);
  }

  /** The world with one call as it is now. */
  ghost function With(w: World, c: nat, x: Call): World {
    w.(calls := w.calls[c := x])
  }

  /** A step that writes no table moves its call only. */
  lemma {:induction false} Moves(w: World, c: nat, x: Call, action: Action)
    requires action.call == c && (action.FoldStream? || action.RunClosure? || action.CheckTail? || action.LookupClaim?)
    ensures Step(With(w, c, x), action) == With(w, c, Advance(With(w, c, x), action))
  {
    var y := Advance(With(w, c, x), action);
    assert w.calls[c := x][c := y] == w.calls[c := y];
  }

  ghost function AfterFold(w: World, x: Call): Call {
    if x.phase.Idle? && x.request.Decide? then
      x.(phase := Deciding, seen := QueryEvents(w.tables, x.request.stream), foldedAt := |w.history|)
    else x
  }

  ghost function AfterClosure(x: Call, tape: nat, uuid: string): Call {
    if x.phase.Deciding? && x.request.Decide? && x.request.reducer.Some? then OnClosure(x, tape, uuid) else x
  }

  ghost function AfterCheck(w: World, x: Call): Call {
    if x.phase.Rechecking? && x.request.Decide? then OnCheck(x, Mark(w.tables, x.request.stream), |w.history|) else x
  }

  /** The call after its lookup, when nothing else ran since it was invoked. */
  ghost function Looked(w: World, r: Request, tape: nat, uuid: string): Call {
    OnLookup(AfterCheck(w, AfterClosure(AfterFold(w, OnInvoke(r)), tape, uuid)), w.tables.claims, w.history)
  }

  lemma {:induction false} AloneLooks(w: World, c: nat, r: Request, tape: nat, uuid: string, stamps: Stamps)
    requires c !in w.calls
    ensures Alone(w, c, r, tape, uuid, stamps) ==
              Step(Step(With(w, c, Looked(w, r, tape, uuid)), Transact(c, stamps)), Notify(c))
  {
    var x0 := OnInvoke(r);
    var x1 := AfterFold(w, x0);
    var x2 := AfterClosure(x1, tape, uuid);
    var x3 := AfterCheck(w, x2);
    assert Step(w, Invoke(c, r)) == With(w, c, x0);
    assert Advance(With(w, c, x0), FoldStream(c)) == x1 && Advance(With(w, c, x1), RunClosure(c, tape, uuid)) == x2;
    assert Advance(With(w, c, x2), CheckTail(c)) == x3;
    hide Step, Advance, OnInvoke, OnClosure, OnCheck, OnLookup, AfterFold, AfterClosure, AfterCheck, QueryEvents, Mark, With;
    Moves(w, c, x0, FoldStream(c));
    Moves(w, c, x1, RunClosure(c, tape, uuid));
    Moves(w, c, x2, CheckTail(c));
    Moves(w, c, x3, LookupClaim(c));
    assert Advance(With(w, c, x3), LookupClaim(c)) == OnLookup(x3, w.tables.claims, w.history) by { LookupReads(w, c, x3); }
  }

  lemma LookupReads(w: World, c: nat, x: Call)
    ensures Advance(With(w, c, x), LookupClaim(c)) == OnLookup(x, w.tables.claims, w.history)
  {
  }

  /** The end of a call that has nothing to write. */
  lemma {:induction false} NothingToWrite(w: World, c: nat, x: Call, stamps: Stamps)
    requires x.phase.Done?
    ensures Step(Step(With(w, c, x), Transact(c, stamps)), Notify(c)) == With(w, c, x)
  {
  }

  /** The end of a call that has its write attempt before it. */
  lemma {:induction false} WriteApplies(w: World, c: nat, x: Call, stamps: Stamps)
    requires x.phase.Writing? && RunAppend(w.tables, x.phase.append, stamps).Applied?
    ensures var now := Step(Step(With(w, c, x), Transact(c, stamps)), Notify(c));
            var attempt := RunAppend(w.tables, x.phase.append, stamps);
            && now.tables == attempt.tables && c in now.calls && now.calls[c].request == x.request && now.calls[c].key == x.key
            && now.calls[c].phase == Done(Committed(ReceiptOf(attempt.rows)))
  {
  }

  lemma {:induction false} WriteFails(w: World, c: nat, x: Call, stamps: Stamps)
    requires x.phase.Writing? && RunAppend(w.tables, x.phase.append, stamps).GateConflict?
    ensures var now := Step(Step(With(w, c, x), Transact(c, stamps)), Notify(c));
            var attempt := RunAppend(w.tables, x.phase.append, stamps);
            && now.tables == w.tables && c in now.calls && now.calls[c].key == x.key
            && now.calls[c].phase == Done(Translate(x.request, Failed(SequenceConflict(attempt.expected, attempt.actual))))
  {
  }

  /** On dense tables an attempt applies whenever the gate passes and its key is free. */
  lemma {:induction false} GateIsEnough(t: Tables, a: AppendRequest, stamps: Stamps)
    requires Dense(t)
    ensures RunAppend(t, a, stamps).Applied? <==>
              && (a.expected.Some? ==> a.expected.value == Mark(t, a.stream))
              && (a.key.Some? ==> (a.stream, a.key.value) !in t.claims)
  {
    DenseNeverCollides(t, a.stream, Finalize(a.stream, a.key, a.inputs, Mark(t, a.stream), stamps));
  }

  /** The claim of a key answers a later append with this receipt. */
  predicate Claimed(t: Tables, s: StreamId, key: Key, receipt: Receipt) {
    (s, key) in t.claims && Taken(t.claims[(s, key)]) == CacheHit(receipt)
  }

  /** What makes an append end in a commit when it runs alone, and what it ends in otherwise. */
  ghost predicate AppendEnds(t: Tables, now: Tables, r: Request, stamps: Stamps, o: Outcome, receipt: Receipt)
    requires r.Append?
  {
    if !ValidStreamId(r.stream) || r.inputs == [] || r.key == Some("") then o == Failed(IoError) && now == t
    else if r.key.Some? && (r.stream, r.key.value) in t.claims then o == Taken(t.claims[(r.stream, r.key.value)]) && now == t
    else if r.expected.Some? && r.expected.value != Mark(t, r.stream) then
      o == Failed(SequenceConflict(r.expected.value, Mark(t, r.stream))) && now == t
    else
      && o == Committed(receipt) && Stores(t, now, r.stream, r.inputs, r.key, stamps, receipt)
      && (r.key.Some? ==> Claimed(now, r.stream, r.key.value, receipt))
  }

  lemma {:induction false} AppendWrites(w: World, c: nat, x: Call, stamps: Stamps) returns (receipt: Receipt)
    requires Dense(w.tables) && x.request.Append? && x.phase.Writing?
    requires var r := x.request;
             && x.phase.append == AppendRequest(r.stream, r.key, r.inputs, r.expected)
             && ValidStreamId(r.stream) && r.inputs != [] && r.key != Some("")
             && (r.key.Some? ==> (r.stream, r.key.value) !in w.tables.claims)
    ensures var now := Step(Step(With(w, c, x), Transact(c, stamps)), Notify(c));
            && c in now.calls && now.calls[c].phase.Done? && now.calls[c].key == x.key
            && AppendEnds(w.tables, now.tables, x.request, stamps, now.calls[c].phase.outcome, receipt)
  {
    var a, t := x.phase.append, w.tables;
    var attempt := RunAppend(t, a, stamps);
    GateIsEnough(t, a, stamps);
    receipt := Receipt([], [], []);
    if attempt.Applied? {
      receipt := ReceiptOf(attempt.rows);
      AppendStores(t, a, stamps);
      WriteApplies(w, c, x, stamps);
      assert a.key.Some? ==> Claimed(attempt.tables, a.stream, a.key.value, receipt);
      hide Step, Stores, ValidStreamId, RunAppend, ReceiptOf, Dense, Claimed;
    } else {
      WriteFails(w, c, x, stamps);
      hide Step, ValidStreamId, Dense;
    }
  }

  /** An append alone, from any reachable state. */
  lemma {:induction false} AppendAlone(actions: seq<Action>, c: nat, r: Request, tape: nat, uuid: string, stamps: Stamps)
    returns (receipt: Receipt)
    requires c !in Run(actions).calls && r.Append?
    ensures var w, now := Run(actions), Run(actions + AloneSteps(c, r, tape, uuid, stamps));
            && c in now.calls && now.calls[c].phase.Done? && now.calls[c].key == r.key
            && AppendEnds(w.tables, now.tables, r, stamps, now.calls[c].phase.outcome, receipt)
  {
    var w := Run(actions);
    RunKeepsInv(actions);
    RunsAlone(actions, c, r, tape, uuid, stamps);
    AloneLooks(w, c, r, tape, uuid, stamps);
    var x := Looked(w, r, tape, uuid);
    AppendLooked(w, r, tape, uuid);
    hide Run, Step, Looked, Stores, Alone, ValidStreamId, Claimed;
    if x.phase.Done? {
      receipt := Receipt([], [], []);
      NothingToWrite(w, c, x, stamps);
    } else {
      hide AppendEnds;
      receipt := AppendWrites(w, c, x, stamps);
    }
  }

  lemma AppendLooked(w: World, r: Request, tape: nat, uuid: string)
    requires r.Append?
    ensures var x, a := Looked(w, r, tape, uuid), AppendRequest(r.stream, r.key, r.inputs, r.expected);
            && x.request == r && x.key == r.key
            && x.phase == if !ValidStreamId(r.stream) || r.inputs == [] || r.key == Some("") then Done(Failed(IoError))
                          else if r.key.Some? && (r.stream, r.key.value) in w.tables.claims
                          then Done(Taken(w.tables.claims[(r.stream, r.key.value)]))
                          else Writing(a, 1)
  {
    hide ValidStreamId, CommitOf;
  }

  // ----- a decision alone

  /** What makes a decision end in a commit when it runs alone, and what it ends in otherwise. */
  ghost predicate DecideEnds(t: Tables, now: Tables, r: Request, tape: nat, uuid: string, stamps: Stamps, o: Outcome,
                             receipt: Receipt)
    requires r.Decide?
  {
    if r.session && r.operation.None? && !r.allowNonIdempotent then o == Failed(InvalidSession) && now == t
    else if r.reducer.None? then o == Failed(UnknownReducer) && now == t
    else
      var log := QueryEvents(t, r.stream);
      match r.closure(Fold(r.reducer.value, log), |log|, tape)
      case Threw => o == Failed(ClosureFailed) && now == t
      case Produced(inputs) =>
        if inputs == [] then o == NoOp && now == t
        else if !ValidStreamId(r.stream) then o == Failed(IoError) && now == t
        else if (r.stream, KeyText(r, uuid)) in t.claims then o == Taken(t.claims[(r.stream, KeyText(r, uuid))]) && now == t
        else
          && o == Committed(receipt) && Stores(t, now, r.stream, inputs, Some(KeyText(r, uuid)), stamps, receipt)
          && Claimed(now, r.stream, KeyText(r, uuid), receipt)
  }

  /** The call after its lookup, as the closure answered. */
  ghost predicate DecideLooks(t: Tables, r: Request, tape: nat, uuid: string, x: Call)
    requires r.Decide?
  {
    if r.session && r.operation.None? && !r.allowNonIdempotent then x.phase == Done(Failed(InvalidSession))
    else if r.reducer.None? then x.phase == Done(Failed(UnknownReducer))
    else
      var log := QueryEvents(t, r.stream);
      match r.closure(Fold(r.reducer.value, log), |log|, tape)
      case Threw => x.phase == Done(Failed(ClosureFailed))
      case Produced(inputs) =>
        var key := KeyText(r, uuid);
        if inputs == [] then x.phase == Done(NoOp)
        else
          && x.key == Some(key)
          && x.phase == if !ValidStreamId(r.stream) then Done(Failed(IoError))
                        else if (r.stream, key) in t.claims then Done(Taken(t.claims[(r.stream, key)]))
                        else Writing(AppendRequest(r.stream, Some(key), inputs, Some(|log|)), 1)
  }

  lemma {:induction false} DecideLooked(w: World, r: Request, tape: nat, uuid: string)
    requires r.Decide? && TablesOk(w.tables, w.history)
    ensures var x := Looked(w, r, tape, uuid); x.request == r && DecideLooks(w.tables, r, tape, uuid, x)
  {
    var x0 := OnInvoke(r);
    var x1 := AfterFold(w, x0);
    var x2 := AfterClosure(x1, tape, uuid);
    var log := QueryEvents(w.tables, r.stream);
    ReadsLog(w.tables, w.history, r.stream);
    assert TailVersion(log) == |log| == Mark(w.tables, r.stream);
    if x0.phase.Done? {
      DoneLooks(w, x0);
      assert x2 == x0;
      hide QueryEvents, TablesOk, Mark, TailVersion, KeyText, OnLookup;
    } else {
      assert x1 == x0.(phase := Deciding, seen := log, foldedAt := |w.history|) && x1.request == r;
      assert x2 == OnClosure(x1, tape, uuid);
      KeyIsItsParts(r, uuid);
      KeyIsText(r, uuid);
      ClosureAnswers(x1, tape, uuid);
      hide QueryEvents, TablesOk, Mark, KeyText, DecideKey, OnClosure, OnInvoke, AfterFold, AfterClosure, Fold, OnLookup;
      if x2.phase.Claiming? {
        ClaimingLooks(w.tables.claims, w.history, x2);
      } else {
        if x2.phase.Done? { DoneLooks(w, x2); } else { DoneLooks(w, AfterCheck(w, x2)); }
      }
    }
  }

  lemma DoneLooks(w: World, x: Call)
    requires x.phase.Done?
    ensures AfterCheck(w, x) == x && OnLookup(x, w.tables.claims, w.history) == x
  {
  }

  /** The lookup of a well-formed keyed append. */
  lemma ClaimingLooks(claims: map<(StreamId, Key), Claim>, h: seq<Entry>, x: Call)
    requires x.phase.Claiming? && x.phase.append.inputs != [] && x.phase.append.key.Some? && x.phase.append.key != Some("")
    ensures var a, y := x.phase.append, OnLookup(x, claims, h);
            && y.request == x.request && y.key == x.key
            && y.phase == if !ValidStreamId(a.stream) then Done(Failed(IoError))
                          else if (a.stream, a.key.value) in claims then Done(Taken(claims[(a.stream, a.key.value)]))
                          else Writing(a, 1)
  {
    hide ValidStreamId, CommitOf;
  }

  /** What the closure makes of a folded call. */
  lemma ClosureAnswers(x: Call, tape: nat, uuid: string)
    requires x.request.Decide? && x.request.reducer.Some? && TailVersion(x.seen) == |x.seen|
    ensures var r, y := x.request, OnClosure(x, tape, uuid);
            var out := r.closure(Fold(r.reducer.value, x.seen), |x.seen|, tape);
            && y.request == r && y.seen == x.seen
            && (out.Threw? ==> y.phase == Done(Failed(ClosureFailed)))
            && (out == Produced([]) ==> y.phase == if r.enforce then Rechecking else Done(NoOp))
            && (out.Produced? && out.inputs != [] ==>
                  && y.key == Some(DecideKey(r, uuid))
                  && y.phase == Claiming(AppendRequest(r.stream, Some(DecideKey(r, uuid)), out.inputs, Some(|x.seen|))))
  {
    hide DecideKey;
  }

  lemma {:induction false} KeyIsText(r: Request, uuid: string)
    requires r.Decide?
    ensures KeyText(r, uuid) != ""
  {
    KeyIsItsParts(r, uuid);
    assert ':' in DecideKey(r, uuid);
  }

  lemma {:induction false} DecideWrites(w: World, c: nat, r: Request, tape: nat, uuid: string, x: Call, stamps: Stamps)
    returns (receipt: Receipt)
    requires TablesOk(w.tables, w.history) && r.Decide? && x.request == r && DecideLooks(w.tables, r, tape, uuid, x)
    ensures var now := Step(Step(With(w, c, x), Transact(c, stamps)), Notify(c));
            && c in now.calls && now.calls[c].phase.Done?
            && DecideEnds(w.tables, now.tables, r, tape, uuid, stamps, now.calls[c].phase.outcome, receipt)
  {
    hide Step, Stores, ValidStreamId, KeyText, QueryEvents, Fold;
    receipt := Receipt([], [], []);
    if x.phase.Done? {
      NothingToWrite(w, c, x, stamps);
    } else {
      var a := x.phase.append;
      ReadsLog(w.tables, w.history, r.stream);
      assert Dense(w.tables);
      hide TablesOk;
      GateIsEnough(w.tables, a, stamps);
      receipt := ReceiptOf(RunAppend(w.tables, a, stamps).rows);
      AppendStores(w.tables, a, stamps);
      WriteApplies(w, c, x, stamps);
      hide RunAppend, ReceiptOf, Dense;
    }
  }

  /** A decision alone, from any reachable state. */
  lemma {:induction false} DecideAlone(actions: seq<Action>, c: nat, r: Request, tape: nat, uuid: string, stamps: Stamps)
    returns (receipt: Receipt)
    requires c !in Run(actions).calls && r.Decide?
    ensures var w, now := Run(actions), Run(actions + AloneSteps(c, r, tape, uuid, stamps));
            && c in now.calls && now.calls[c].phase.Done?
            && DecideEnds(w.tables, now.tables, r, tape, uuid, stamps, now.calls[c].phase.outcome, receipt)
  {
    var w := Run(actions);
    RunKeepsInv(actions);
    RunsAlone(actions, c, r, tape, uuid, stamps);
    hide Run, Step, Looked, Alone, DecideEnds, DecideLooks, Fold;
    AloneLooks(w, c, r, tape, uuid, stamps);
    DecideLooked(w, r, tape, uuid);
    receipt := DecideWrites(w, c, r, tape, uuid, Looked(w, r, tape, uuid), stamps);
  }

  // ----- a once-only decision alone

  ghost predicate OnceEnds(t: Tables, now: Tables, r: Request, stamps: Stamps, o: Outcome, receipt: Receipt)
    requires r.DecideOnce?
  {
    var slot, out := (ONCE_STREAM, r.id), r.decision(Snapshot(t));
    if r.id == "" || r.digest == "" then o == Failed(ClosureFailed) && now == t
    else if slot in t.claims then
      && now == t
      && match t.claims[slot].payload
         case Decision(_, digest, result, _) =>
           o == if digest == r.digest then OnceResult(result, false) else Failed(DigestMismatch)
         case Events(_) => o == Failed(DigestMismatch)
    else if out.OnceThrew? || out.stream == "" || out.inputs == [] then o == Failed(ClosureFailed) && now == t
    else if out.expected.Some? && out.expected.value != Mark(t, out.stream) then
      o == Failed(ConcurrencyError(out.expected.value, Mark(t, out.stream))) && now == t
    else
      && o == OnceResult(out.result, true) && Stores(t, now, out.stream, out.inputs, None, stamps, receipt)
      && slot in now.claims && now.claims[slot].receipt == receipt
      && now.claims[slot].payload.Decision? && now.claims[slot].payload.digest == r.digest
      && now.claims[slot].payload.result == out.result
  }

  lemma OnceLooked(w: World, r: Request, tape: nat, uuid: string)
    requires r.DecideOnce?
    ensures var x, slot, claims := Looked(w, r, tape, uuid), (ONCE_STREAM, r.id), w.tables.claims;
            && x.request == r
            && x.phase == if r.id == "" || r.digest == "" then Done(Failed(ClosureFailed))
                          else if slot !in claims then OnceWriting(1)
                          else if claims[slot].payload.Decision? && claims[slot].payload.digest == r.digest
                          then Done(OnceResult(claims[slot].payload.result, false))
                          else Done(Failed(DigestMismatch))
  {
    hide CommitOf;
  }

  lemma {:induction false} OnceWrites(w: World, c: nat, x: Call, stamps: Stamps)
    requires x.phase.OnceWriting? && x.request.DecideOnce?
    ensures var now := Step(Step(With(w, c, x), Transact(c, stamps)), Notify(c));
            var r := x.request;
            var attempt := RunOnce(w.tables, r.id, r.digest, r.decision, stamps);
            && c in now.calls && now.calls[c].phase.Done?
            && var o := now.calls[c].phase.outcome;
               && (attempt.OnceApplied? ==> o == OnceResult(attempt.result, true) && now.tables == attempt.tables)
               && (attempt.OnceInvalid? ==> o == Failed(ClosureFailed) && now.tables == w.tables)
               && (attempt.OnceGateConflict? ==>
                     o == Failed(ConcurrencyError(attempt.expected, attempt.actual)) && now.tables == w.tables)
  {
    hide RunOnce, CommitOf, Snapshot;
  }

  /** On dense tables a decision under a free id applies whenever it has events and the gate passes. */
  lemma {:induction false} OnceGateIsEnough(t: Tables, op: Key, digest: string, closure: OnceClosure, stamps: Stamps)
    requires Dense(t) && (ONCE_STREAM, op) !in t.claims
    ensures var out, attempt := closure(Snapshot(t)), RunOnce(t, op, digest, closure, stamps);
            if out.OnceThrew? || out.stream == "" || out.inputs == [] then attempt.OnceInvalid?
            else if out.expected.Some? && out.expected.value != Mark(t, out.stream) then
              attempt == OnceGateConflict(out.expected.value, Mark(t, out.stream))
            else attempt.OnceApplied?
  {
    var out := closure(Snapshot(t));
    if out.OnceDecided? {
      DenseNeverCollides(t, out.stream, Finalize(out.stream, None, out.inputs, Mark(t, out.stream), stamps));
    }
  }

  lemma {:induction false} OnceFinishes(w: World, c: nat, x: Call, stamps: Stamps) returns (receipt: Receipt)
    requires Dense(w.tables) && x.request.DecideOnce? && x.request.id != "" && x.request.digest != ""
    requires x.phase.OnceWriting? && (ONCE_STREAM, x.request.id) !in w.tables.claims
    ensures var now := Step(Step(With(w, c, x), Transact(c, stamps)), Notify(c));
            && c in now.calls && now.calls[c].phase.Done?
            && OnceEnds(w.tables, now.tables, x.request, stamps, now.calls[c].phase.outcome, receipt)
  {
    var r := x.request;
    hide Step, Stores, Snapshot, Dense;
    OnceWrites(w, c, x, stamps);
    OnceGateIsEnough(w.tables, r.id, r.digest, r.decision, stamps);
    var attempt := RunOnce(w.tables, r.id, r.digest, r.decision, stamps);
    hide RunOnce;
    receipt := Receipt([], [], []);
    if attempt.OnceApplied? {
      receipt := ReceiptOf(attempt.rows);
      OnceStores(w.tables, r.id, r.digest, r.decision, stamps);
      hide ReceiptOf;
    }
  }

  /** A once-only decision alone, from any reachable state. */
  lemma {:induction false} DecideOnceAlone(actions: seq<Action>, c: nat, r: Request, tape: nat, uuid: string, stamps: Stamps)
    returns (receipt: Receipt)
    requires c !in Run(actions).calls && r.DecideOnce?
    ensures var w, now := Run(actions), Run(actions + AloneSteps(c, r, tape, uuid, stamps));
            && c in now.calls && now.calls[c].phase.Done?
            && OnceEnds(w.tables, now.tables, r, stamps, now.calls[c].phase.outcome, receipt)
  {
    var w := Run(actions);
    RunKeepsInv(actions);
    RunsAlone(actions, c, r, tape, uuid, stamps);
    hide Run, Step, Looked, Alone, Stores, Snapshot;
    AloneLooks(w, c, r, tape, uuid, stamps);
    var x := Looked(w, r, tape, uuid);
    OnceLooked(w, r, tape, uuid);
    if x.phase.Done? {
      receipt := Receipt([], [], []);
      NothingToWrite(w, c, x, stamps);
    } else {
      hide OnceEnds;
      receipt := OnceFinishes(w, c, x, stamps);
    }
  }

  // ----- a busy lock

  /** The gate comes before the claim: an attempt on a stale sequence reports the conflict, also when its key is taken by now. */
  lemma {:induction false} GateBeforeClaim(actions: seq<Action>, c: nat, stamps: Stamps)
    requires c in Run(actions).calls && Run(actions).calls[c].phase.Writing?
    requires var w := Run(actions);
             var a := w.calls[c].phase.append;
             a.expected.Some? && a.expected.value != Mark(w.tables, a.stream)
    ensures var w, now := Run(actions), Run(actions + [Transact(c, stamps)]);
            var x, a := w.calls[c], w.calls[c].phase.append;
            var actual := Mark(w.tables, a.stream);
            && now.tables == w.tables && c in now.calls
            && now.calls[c].phase == Done(Failed(if x.request.Decide? then ConcurrencyError(a.expected.value, actual)
                                                else SequenceConflict(a.expected.value, actual)))
  {
    RunOneMore(actions, Transact(c, stamps));
  }

  /** A fault at any point ends a running call with an error, and stores nothing. */
  lemma {:induction false} FaultEnds(actions: seq<Action>, c: nat)
    requires c in Run(actions).calls && !Run(actions).calls[c].phase.Done? && !Run(actions).calls[c].phase.Notifying?
    ensures var w, now := Run(actions), Run(actions + [Fault(c)]);
            now.tables == w.tables && c in now.calls && now.calls[c].phase == Done(Failed(IoError))
  {
    RunOneMore(actions, Fault(c));
  }

  /** Busy attempts one after the other. */
  function Busy(c: nat, n: nat): seq<Action> {
    if n == 0 then [] else Busy(c, n - 1) + [BusyAttempt(c)]
  }

  /** The call writes, as an append or as a once-only decision, and this is its attempt. */
  predicate Tries(x: Call, once: bool, attempt: nat) {
    if once then x.phase == OnceWriting(attempt) else x.phase.Writing? && x.phase.attempt == attempt
  }

  lemma {:induction false} BusyStep(w: World, c: nat, once: bool, attempt: nat)
    requires c in w.calls && Tries(w.calls[c], once, attempt)
    ensures var now := Step(w, BusyAttempt(c));
            && now.tables == w.tables && c in now.calls
            && if attempt < 5 then Tries(now.calls[c], once, attempt + 1) else now.calls[c].phase == Done(Failed(StorageBusy))
  {
  }

  /** A call that starts to write keeps trying for four busy attempts, and the fifth one ends it with a busy storage. */
  lemma {:induction false} FiveBusyAttempts(actions: seq<Action>, c: nat, once: bool, n: nat)
    requires c in Run(actions).calls && n <= 5 && Tries(Run(actions).calls[c], once, 1)
    ensures var w, now := Run(actions), Run(actions + Busy(c, n));
            && now.tables == w.tables && c in now.calls
            && if n == 5 then now.calls[c].phase == Done(Failed(StorageBusy)) else Tries(now.calls[c], once, n + 1)
  {
    hide Run, Step, Tries;
    if n == 0 {
      assert actions + Busy(c, 0) == actions;
    } else {
      var before := actions + Busy(c, n - 1);
      assert actions + Busy(c, n) == before + [BusyAttempt(c)];
      hide Busy;
      FiveBusyAttempts(actions, c, once, n - 1);
      RunOneMore(before, BusyAttempt(c));
      BusyStep(Run(before), c, once, n);
    }
  }
}
