/**
 * Linearizability of the append protocol. Each call that ended has one step at which its whole operation took effect, between
 * its invocation and its end: the atomic operation, run alone on the streams and claims of that moment, gives its outcome.
 */
module AppendOutcomes {
  import opened Wrappers
  import opened EventTables
  import opened AppendProtocol
  import opened AppendSafety
  import opened AppendTheorems

  predicate Ended(x: Call) {
    x.phase.Done? || x.phase.Notifying?
  }

  /** A step that adds one atomic commit of this very call to the history. */
  ghost predicate Commits(before: seq<Entry>, after: seq<Entry>, c: nat, x: Call) {
    && |after| == |before| + 1 && after[..|before|] == before
    && var e := after[|before|];
       e.call == c && e.request == x.request && e.key == x.key && Atomic(e, before)
  }

  /** The operation of a call, run alone on the streams and claims that a history leaves, gives this outcome. */
  ghost predicate Gives(before: seq<Entry>, after: seq<Entry>, c: nat, x: Call, o: Outcome) {
    var logs, claims, r := Logs(before), Claims(before), x.request;
    match o
    case Committed(receipt) => !r.DecideOnce? && Commits(before, after, c, x) && receipt == ReceiptOf(after[|before|].rows)
    case CacheHit(receipt) =>
      && after == before && !r.DecideOnce? && x.key.Some? && (StreamOf(r), x.key.value) in claims
      && HitOf(claims[(StreamOf(r), x.key.value)]) == Some(receipt)
    case NoOp =>
      && after == before && r.Decide? && r.reducer.Some?
      && (r.enforce ==> var log := LogOf(logs, r.stream); r.closure(Fold(r.reducer.value, log), |log|, x.tape) == Produced([]))
    case OnceResult(result, first) =>
      && r.DecideOnce?
      && if first then Commits(before, after, c, x) && after[|before|].result == result
         else && after == before && (ONCE_STREAM, r.id) in claims
              && ClaimDigest(claims[(ONCE_STREAM, r.id)]) == Some(r.digest) && claims[(ONCE_STREAM, r.id)].payload.result == result
    case Failed(reason) => after == before && Explained(before, x, reason)
  }

  /** A conflict names the length of the log, which is not the expected one. A digest mismatch is one of the stored claim. */
  ghost predicate Explained(h: seq<Entry>, x: Call, reason: Reason) {
    var logs, claims, r := Logs(h), Claims(h), x.request;
    match reason
    case SequenceConflict(expected, actual) =>
      r.Append? && r.expected == Some(expected) && actual == |LogOf(logs, r.stream)| && actual != expected
    case ConcurrencyError(expected, actual) =>
      && actual != expected && !r.Append?
      && if r.Decide? then
           && x.foldedAt <= |h| && expected == |LogOf(Logs(h[..x.foldedAt]), r.stream)|
           && actual == |LogOf(logs, r.stream)|
         else
           && r.decision(logs).OnceDecided? && r.decision(logs).expected == Some(expected)
           && actual == |LogOf(logs, r.decision(logs).stream)|
    case DigestMismatch =>
      r.DecideOnce? && (ONCE_STREAM, r.id) in claims && ClaimDigest(claims[(ONCE_STREAM, r.id)]) != Some(r.digest)
    case _ => true
  }

  // ----- the step that ends a call

  ghost predicate EndGives(h: seq<Entry>, c: nat, x: Call) {
    Ended(x) ==> Gives(h, h, c, x, x.phase.outcome)
  }

  lemma {:induction false} AppendCommitGives(t: Tables, h: seq<Entry>, c: nat, x: Call, stamps: Stamps)
    requires TablesOk(t, h) && CallOk(h, c, x) && x.phase.Writing? && RunAppend(t, x.phase.append, stamps).Applied?
    ensures var a, rows := x.phase.append, RunAppend(t, x.phase.append, stamps).rows;
            Gives(h, h + [Entry(c, x.request, a.stream, rows, a.key, "", x.tape, stamps)], c, x, Committed(ReceiptOf(rows)))
  {
    AppendIsAtomic(t, h, c, x, stamps);
    hide Atomic, RunAppend, Logs, Claims;
  }

  /** What the gate reports is what an append expected, or the length of the log that a decide folded. */
  lemma {:induction false} GateGives(h: seq<Entry>, c: nat, x: Call, expected: nat, actual: nat)
    requires x.phase.Writing? && AppendOk(h, x, x.phase.append)
    requires x.phase.append.expected == Some(expected) && actual != expected
    requires actual == |LogOf(Logs(h), x.phase.append.stream)|
    ensures EndGives(h, c, x.(phase := Done(Translate(x.request, Failed(SequenceConflict(expected, actual))))))
  {
    hide Logs, Claims, Fold, TailVersion, Answered, KeyText;
  }

  lemma {:induction false} RefusedGives(t: Tables, h: seq<Entry>, c: nat, x: Call, stamps: Stamps)
    requires TablesOk(t, h) && CallOk(h, c, x) && x.phase.Writing? && !RunAppend(t, x.phase.append, stamps).Applied?
    ensures EndGives(h, c, OnRefused(x, RunAppend(t, x.phase.append, stamps)))
  {
    var a, attempt := x.phase.append, RunAppend(t, x.phase.append, stamps);
    ReadsLog(t, h, a.stream);
    assert AppendOk(h, x, a);
    assert attempt.GateConflict? ==> a.expected == Some(attempt.expected) && attempt.actual == Mark(t, a.stream) != attempt.expected;
    hide CallOk, TablesOk, RunAppend, QueryEvents, Logs, Claims, Mark, AppendOk, Translate;
    if attempt.GateConflict? {
      GateGives(h, c, x, attempt.expected, attempt.actual);
    }
  }

  lemma {:induction false} OnceCommitGives(t: Tables, h: seq<Entry>, c: nat, x: Call, stamps: Stamps)
    requires TablesOk(t, h) && x.request.DecideOnce? && x.key.None?
    requires RunOnce(t, x.request.id, x.request.digest, x.request.decision, stamps).OnceApplied?
    ensures var r := x.request;
            var a := RunOnce(t, r.id, r.digest, r.decision, stamps);
            Gives(h, h + [Entry(c, r, r.decision(Snapshot(t)).stream, a.rows, None, a.result, 0, stamps)], c, x,
                  OnceResult(a.result, true))
  {
    var r := x.request;
    OnceIsAtomic(t, h, c, r, stamps);
    hide Atomic, RunOnce, Logs, Claims, Snapshot, TablesOk;
  }

  lemma {:induction false} OnceRefusedGives(t: Tables, h: seq<Entry>, c: nat, x: Call, stamps: Stamps, a: OnceAttempt)
    requires TablesOk(t, h) && x.request.DecideOnce? && !a.OnceApplied?
    requires a == RunOnce(t, x.request.id, x.request.digest, x.request.decision, stamps)
    ensures EndGives(h, c, OnOnceRefused(x, a, h))
  {
    var out := x.request.decision(Snapshot(t));
    if out.OnceDecided? { ReadsLog(t, h, out.stream); }
    hide Collides, Finalize, QueryEvents, CommitOf;
  }

  /** A tail re-read that finds more than the fold. */
  lemma {:induction false} TailConflictGives(h: seq<Entry>, c: nat, x: Call, actual: nat)
    requires Folded(h, x) && actual == |LogOf(Logs(h), x.request.stream)| != |x.seen|
    ensures EndGives(h, c, x.(phase := Done(Failed(ConcurrencyError(|x.seen|, actual)))))
  {
    hide Logs, Claims, TailVersion;
  }

  lemma {:induction false} CheckGives(t: Tables, h: seq<Entry>, c: nat, x: Call)
    requires TablesOk(t, h) && CallOk(h, c, x) && x.phase.Rechecking?
    ensures EndGives(h, c, OnCheck(x, Mark(t, x.request.stream), |h|))
  {
    var tail, log := Mark(t, x.request.stream), LogOf(Logs(h), x.request.stream);
    ReadsLog(t, h, x.request.stream);
    LogsPrefix(h, x.foldedAt, x.request.stream);
    assert Folded(h, x) && Answered(x, []) && x.seen <= log && tail == |log| && TailVersion(x.seen) == |x.seen|;
    hide CallOk, TablesOk, QueryEvents, Logs, Claims, Mark, TailVersion, Fold, Folded, LogOf;
    if tail == |x.seen| {
      assert x.seen == log;
    } else {
      hide Gives, EndGives;
      TailConflictGives(h, c, x, tail);
    }
  }

  lemma ClosureGives(h: seq<Entry>, c: nat, x: Call, tape: nat, uuid: string)
    requires CallOk(h, c, x) && x.phase.Deciding?
    ensures EndGives(h, c, OnClosure(x, tape, uuid))
  {
  }

  lemma {:induction false} LookupGives(h: seq<Entry>, c: nat, x: Call)
    requires CallOk(h, c, x) && !Ended(x)
    ensures EndGives(h, c, OnLookup(x, Claims(h), h))
  {
    hide Claims, Logs, CommitOf, WellFormed;
  }

  lemma RereadGives(h: seq<Entry>, c: nat, x: Call)
    requires CallOk(h, c, x) && x.phase.Racing?
    ensures EndGives(h, c, OnReread(x, Claims(h), h))
  {
  }

  lemma {:induction false} AdvanceGives(w: World, action: Action)
    requires TablesOk(w.tables, w.history) && action.call in w.calls && !Ended(w.calls[action.call])
    requires CallOk(w.history, action.call, w.calls[action.call])
    ensures EndGives(w.history, action.call, Advance(w, action))
  {
    var c, h := action.call, w.history;
    var x := w.calls[c];
    hide Logs, Claims;
    match action
    case FoldStream(_) =>
    case RunClosure(_, tape, uuid) => if x.phase.Deciding? { ClosureGives(h, c, x, tape, uuid); }
    case CheckTail(_) => if x.phase.Rechecking? && x.request.Decide? { CheckGives(w.tables, h, c, x); }
    case LookupClaim(_) => LookupGives(h, c, x);
    case BusyAttempt(_) =>
    case Reread(_) => if x.phase.Racing? { RereadGives(h, c, x); }
    case _ =>
  }

  lemma {:induction false} AppendGives(w: World, c: nat, stamps: Stamps)
    requires TablesOk(w.tables, w.history) && c in w.calls && CallOk(w.history, c, w.calls[c]) && w.calls[c].phase.Writing?
    ensures var w' := OnAppend(w, c, stamps);
            Ended(w'.calls[c]) ==> Gives(w.history, w'.history, c, w'.calls[c], w'.calls[c].phase.outcome)
  {
    var x, t, h := w.calls[c], w.tables, w.history;
    hide Gives, CallOk, TablesOk, RunAppend;
    if RunAppend(t, x.phase.append, stamps).Applied? {
      AppendCommitGives(t, h, c, x, stamps);
      var y := OnAppend(w, c, stamps).calls[c];
      AppendRowsAre(t, x.phase.append, stamps);
      GivesOnwards(h, OnAppend(w, c, stamps).history, c, x, y, y.phase.outcome);
    } else {
      RefusedGives(t, h, c, x, stamps);
    }
  }

  lemma AppendRowsAre(t: Tables, a: AppendRequest, stamps: Stamps)
    requires RunAppend(t, a, stamps).Applied?
    ensures RunAppend(t, a, stamps).rows == Finalize(a.stream, a.key, a.inputs, Mark(t, a.stream), stamps)
  {
  }

  /** What an operation gives does not depend on the phase of its call. */
  lemma GivesOnwards(before: seq<Entry>, after: seq<Entry>, c: nat, x: Call, y: Call, o: Outcome)
    requires y == x.(phase := y.phase, commit := y.commit) && Gives(before, after, c, x, o)
    ensures Gives(before, after, c, y, o)
  {
  }

  lemma {:induction false} OnceGives(w: World, c: nat, stamps: Stamps)
    requires TablesOk(w.tables, w.history) && c in w.calls && w.calls[c].key.None?
    requires w.calls[c].phase.OnceWriting? && w.calls[c].request.DecideOnce?
    ensures var w' := OnOnce(w, c, stamps);
            Ended(w'.calls[c]) ==> Gives(w.history, w'.history, c, w'.calls[c], w'.calls[c].phase.outcome)
  {
    var x, t, h := w.calls[c], w.tables, w.history;
    hide Gives, TablesOk, RunOnce;
    var a := RunOnce(t, x.request.id, x.request.digest, x.request.decision, stamps);
    if a.OnceApplied? {
      OnceCommitGives(t, h, c, x, stamps);
      var y := OnOnce(w, c, stamps).calls[c];
      GivesOnwards(h, OnOnce(w, c, stamps).history, c, x, y, y.phase.outcome);
    } else {
      OnceRefusedGives(t, h, c, x, stamps, a);
    }
  }

  lemma OthersStay(w: World, action: Action, c: nat)
    requires action.call != c && c in Step(w, action).calls
    ensures c in w.calls && Step(w, action).calls[c] == w.calls[c]
  {
  }

  /** A call that its first checks refuse. */
  lemma InvokeGives(h: seq<Entry>, c: nat, r: Request)
    ensures EndGives(h, c, OnInvoke(r))
  {
  }

  /** The step that ends a call gives its outcome. */
  lemma {:induction false} StepGives(w: World, action: Action, c: nat)
    requires Inv(w) && c in Step(w, action).calls && Ended(Step(w, action).calls[c])
    requires c in w.calls ==> !Ended(w.calls[c])
    ensures var w' := Step(w, action);
            Gives(w.history, w'.history, c, w'.calls[c], w'.calls[c].phase.outcome)
    ensures c !in w.calls ==> action.Invoke? && action.call == c
  {
    hide Gives, CallOk, TablesOk, OnAppend, OnOnce, OnInvoke, Advance;
    if action.call != c {
      OthersStay(w, action, c);
    } else if c !in w.calls {
      InvokeGives(w.history, c, action.request);
    } else {
      assert CallOk(w.history, c, w.calls[c]);
      if !action.Transact? {
        AdvanceGives(w, action);
      } else if w.calls[c].phase.Writing? {
        AppendGives(w, c, action.stamps);
      } else {
        OnceHasNoKey(w.history, c, w.calls[c]);
        OnceGives(w, c, action.stamps);
      }
    }
  }

  lemma OnceHasNoKey(h: seq<Entry>, c: nat, x: Call)
    requires CallOk(h, c, x) && x.phase.OnceWriting?
    ensures x.key.None?
  {
  }

  /** A call that ended keeps its outcome and all that the outcome speaks about. */
  lemma {:induction false} EndStays(w: World, action: Action, c: nat)
    requires c in w.calls && Ended(w.calls[c])
    ensures c in Step(w, action).calls && Ended(Step(w, action).calls[c])
    ensures var x, x' := w.calls[c], Step(w, action).calls[c];
            x' == x || x' == x.(phase := Done(x.phase.outcome))
  {
  }

  // ----- whole runs

  /** The call ends at this step of the schedule. */
  ghost predicate EndsAt(actions: seq<Action>, c: nat, n: nat) {
    && n < |actions|
    && c in Run(actions[..n + 1]).calls && Ended(Run(actions[..n + 1]).calls[c])
    && (c in Run(actions[..n]).calls ==> !Ended(Run(actions[..n]).calls[c]))
  }

  /**
   * Every call that ended, in any schedule, has a step after its invocation at which it was still running, and at which the
   * atomic operation gives its outcome. Only a call that its first checks refuse ends at its invocation.
   */
  lemma {:induction false} EveryOutcomeIsAtomic(actions: seq<Action>, c: nat) returns (n: nat)
    requires c in Run(actions).calls && Ended(Run(actions).calls[c])
    ensures EndsAt(actions, c, n)
    ensures c !in Run(actions[..n]).calls ==> actions[n].Invoke? && actions[n].call == c
    ensures var x := Run(actions).calls[c];
            Gives(Run(actions[..n]).history, Run(actions[..n + 1]).history, c, x, x.phase.outcome)
  {
    var last := |actions| - 1;
    var before, action := actions[..last], actions[last];
    var w := Run(before);
    assert Run(actions) == Step(w, action) && actions[..last + 1] == actions;
    hide Run, Step, Gives;
    if c in w.calls && Ended(w.calls[c]) {
      n := EveryOutcomeIsAtomic(before, c);
      assert before[..n] == actions[..n] && before[..n + 1] == actions[..n + 1];
      EndStays(w, action, c);
      GivesOnwards(Run(actions[..n]).history, Run(actions[..n + 1]).history, c, w.calls[c], Run(actions).calls[c],
                   w.calls[c].phase.outcome);
    } else {
      n := last;
      RunKeepsInv(before);
      StepGives(w, action, c);
    }
  }

  lemma {:induction false} CallStays(w: World, action: Action, c: nat)
    requires c in w.calls
    ensures c in Step(w, action).calls && (Ended(w.calls[c]) ==> Ended(Step(w, action).calls[c]))
  {
    StepExtendsHistory(w, action);
    if Ended(w.calls[c]) { EndStays(w, action, c); }
  }

  lemma {:induction false} EndedStays(actions: seq<Action>, c: nat, n: nat)
    requires n <= |actions| && c in Run(actions[..n]).calls
    ensures c in Run(actions).calls && (Ended(Run(actions[..n]).calls[c]) ==> Ended(Run(actions).calls[c]))
    decreases |actions|
  {
    if n < |actions| {
      var before := actions[..|actions| - 1];
      assert before[..n] == actions[..n] && Run(actions) == Step(Run(before), actions[|actions| - 1]);
      hide Run, Step;
      EndedStays(before, c, n);
      CallStays(Run(before), actions[|actions| - 1], c);
    } else {
      assert actions[..n] == actions;
    }
  }

  /** The steps respect real time: a call that ended before another was invoked took effect before it. */
  lemma {:induction false} EffectsRespectRealTime(actions: seq<Action>, c: nat, d: nat, t: nat, n: nat, m: nat)
    requires t <= |actions| && c in Run(actions[..t]).calls && Ended(Run(actions[..t]).calls[c])
    requires d !in Run(actions[..t]).calls
    requires EndsAt(actions, c, n) && EndsAt(actions, d, m)
    ensures n < t <= m
  {
    if t <= n {
      assert actions[..n][..t] == actions[..t];
      EndedStays(actions[..n], c, t);
    }
    if m < t {
      assert actions[..t][..m + 1] == actions[..m + 1];
      EndedStays(actions[..t], d, m + 1);
    }
  }

  lemma {:induction false} MarkIsActual(t: Tables, h: seq<Entry>, x: Call, expected: nat, actual: nat)
    requires TablesOk(t, h)
    requires Explained(h, x, SequenceConflict(expected, actual)) || Explained(h, x, ConcurrencyError(expected, actual))
    ensures actual != expected && IsMarkOf(t, x.request, actual)
  {
    var r := x.request;
    if r.DecideOnce? { ReadsLog(t, h, r.decision(Snapshot(t)).stream); } else { ReadsLog(t, h, r.stream); }
  }

  /** The number is the mark of the stream that the call writes. */
  ghost predicate IsMarkOf(t: Tables, r: Request, n: nat) {
    if r.DecideOnce? then r.decision(Snapshot(t)).OnceDecided? && n == Mark(t, r.decision(Snapshot(t)).stream)
    else n == Mark(t, r.stream)
  }

  /** A reported conflict is true: at the step that ends the call the mark of its stream is `actual`, which is not `expected`. */
  lemma {:induction false} ReportedConflictIsTrue(actions: seq<Action>, c: nat, expected: nat, actual: nat) returns (n: nat)
    requires c in Run(actions).calls
    requires var p := Run(actions).calls[c].phase;
             p == Done(Failed(SequenceConflict(expected, actual))) || p == Done(Failed(ConcurrencyError(expected, actual)))
    ensures EndsAt(actions, c, n) && actual != expected
    ensures Run(actions[..n + 1]).tables == Run(actions[..n]).tables
    ensures IsMarkOf(Run(actions[..n]).tables, Run(actions).calls[c].request, actual)
  {
    n := EveryOutcomeIsAtomic(actions, c);
    var w, x := Run(actions[..n]), Run(actions).calls[c];
    assert actions[..n + 1][..n] == actions[..n];
    assert Run(actions[..n + 1]) == Step(w, actions[n]);
    RunKeepsInv(actions[..n]);
    hide Run, Step, Explained, IsMarkOf;
    MarkIsActual(w.tables, w.history, x, expected, actual);
    StepExtendsHistory(w, actions[n]);
  }
}
