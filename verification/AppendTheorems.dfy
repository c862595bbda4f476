/** What the append protocol promises over every schedule. Each `actions` is one interleaving. */
module AppendTheorems {
  import opened Wrappers
  import opened EventTables
  import opened AppendProtocol
  import opened AppendSafety

  // ----- the concurrent run and the sequential run

  /**
   * Every interleaving equals a sequential run of atomic decisions, taken in commit order: the tables
   * hold exactly the streams and the claims that this run leaves.
   */
  lemma {:induction false} EveryRunIsSequential(actions: seq<Action>)
    ensures var w := Run(actions);
            Sequential(w.history) && Snapshot(w.tables) == Logs(w.history) && w.tables.claims == Claims(w.history)
  {
    RunKeepsInv(actions);
  }

  lemma StepExtendsHistory(w: World, action: Action)
    ensures w.history <= Step(w, action).history
    ensures Step(w, action).tables != w.tables ==> |Step(w, action).history| == |w.history| + 1
    ensures forall c :: c in w.calls ==> c in Step(w, action).calls && Step(w, action).calls[c].request == w.calls[c].request
  {
  }

  lemma {:induction false} HistoryOnlyGrows(actions: seq<Action>, more: seq<Action>)
    ensures Run(actions).history <= Run(actions + more).history
    ensures forall c :: c in Run(actions).calls ==>
              c in Run(actions + more).calls && Run(actions + more).calls[c].request == Run(actions).calls[c].request
    decreases |more|
  {
    if more == [] {
      assert actions + more == actions;
    } else {
      hide Run, Step;
      var front, last := more[..|more| - 1], more[|more| - 1];
      HistoryOnlyGrows(actions, front);
      assert actions + more == (actions + front) + [last];
      RunOneMore(actions + front, last);
      StepExtendsHistory(Run(actions + front), last);
    }
  }

  /** The order of the sequential run respects real time: a call that starts after a commit commits later. */
  lemma {:induction false} CommitOrderIsRealTimeOrder(actions: seq<Action>, more: seq<Action>, i: nat, j: nat)
    requires i < |Run(actions).history|
    requires j < |Run(actions + more).history|
    requires Run(actions + more).history[j].call !in Run(actions).calls
    ensures i < j
  {
    HistoryOnlyGrows(actions, more);
    if j <= i { CommitterIsKnown(actions, j); }
  }

  lemma {:induction false} CommitterIsKnown(actions: seq<Action>, i: nat)
    requires i < |Run(actions).history|
    ensures Run(actions).history[i].call in Run(actions).calls
  {
    RunKeepsInv(actions);
    assert EntryOk(Run(actions).calls, Run(actions).history, i);
  }

  // ----- decide and withSession

  lemma {:induction false} CommitAt(actions: seq<Action>, c: nat)
    requires c in Run(actions).calls && Finished(Run(actions).calls[c])
    ensures var w := Run(actions);
            var i := w.calls[c].commit;
            && i < |w.history| && w.history[i].call == c && w.history[i].request == w.calls[c].request
            && w.history[i].key == w.calls[c].key
            && Atomic(w.history[i], w.history[..i])
            && (forall j :: 0 <= j < |w.history| && w.history[j].call == c ==> j == i)
  {
    RunKeepsInv(actions);
    var w := Run(actions);
    assert CallOk(w.history, c, w.calls[c]);
    assert EntryOk(w.calls, w.history, w.calls[c].commit);
    AtomicAt(w.history, w.calls[c].commit);
    forall j | 0 <= j < |w.history| && w.history[j].call == c ensures j == w.calls[c].commit {
      assert EntryOk(w.calls, w.history, j);
    }
  }

  /** A committed decide stored what its closure made of the fold of the log right before its events. */
  lemma {:induction false} CommittedDecideSawItsPrefix(actions: seq<Action>, c: nat, receipt: Receipt)
    requires c in Run(actions).calls && Run(actions).calls[c].request.Decide?
    requires Run(actions).calls[c].phase == Done(Committed(receipt))
    ensures var w := Run(actions);
            var r := w.calls[c].request;
            exists i :: 0 <= i < |w.history| && w.history[i].call == c && r.reducer.Some? &&
              var e := w.history[i];
              var log := LogOf(Logs(w.history[..i]), r.stream);
              var out := r.closure(Fold(r.reducer.value, log), |log|, e.tape);
              && out.Produced?
              && AreRows(e.rows, r.stream, e.key, out.inputs, |log|, e.stamps)
              && LogOf(Logs(w.history[..i + 1]), r.stream) == log + e.rows
              && receipt == ReceiptOf(e.rows)
  {
    CommitAt(actions, c);
    RunKeepsInv(actions);
    var w := Run(actions);
    var i := w.calls[c].commit;
    assert CallOk(w.history, c, w.calls[c]);
    assert w.history[..i + 1] == w.history[..i] + [w.history[i]];
    HistoryGrows(w.history[..i], w.history[i]);
  }

  /**
   * A no-op is an empty decision on the whole log at its fold. Where consistency is enforced, the log
   * was still the same at the re-read.
   */
  lemma {:induction false} NoOpSawTheWholeLog(actions: seq<Action>, c: nat)
    requires c in Run(actions).calls && Run(actions).calls[c].phase == Done(NoOp)
    ensures var w := Run(actions);
            var x := w.calls[c];
            && x.request.Decide? && x.request.reducer.Some? && x.foldedAt <= |w.history|
            && var log := LogOf(Logs(w.history[..x.foldedAt]), x.request.stream);
               && x.request.closure(Fold(x.request.reducer.value, log), |log|, x.tape) == Produced([])
               && (x.request.enforce ==>
                     (x.checkedAt <= |w.history| && LogOf(Logs(w.history[..x.checkedAt]), x.request.stream) == log))
  {
    RunKeepsInv(actions);
    assert CallOk(Run(actions).history, c, Run(actions).calls[c]);
  }

  /**
   * The step that gives an enforced no-op is the tail re-read, and at that very step the log of the stream is
   * the one that the closure answered with nothing.
   */
  lemma {:induction false} EnforcedNoOpIsAReRead(actions: seq<Action>, action: Action, c: nat)
    requires c in Run(actions).calls && Run(actions).calls[c].phase != Done(NoOp)
    requires Run(actions).calls[c].request.Decide? && Run(actions).calls[c].request.enforce
    requires c in Run(actions + [action]).calls && Run(actions + [action]).calls[c].phase == Done(NoOp)
    ensures var x := Run(actions).calls[c];
            && action == CheckTail(c) && x.phase.Rechecking? && x.request.reducer.Some?
            && x.seen == QueryEvents(Run(actions).tables, x.request.stream)
            && x.request.closure(Fold(x.request.reducer.value, x.seen), |x.seen|, x.tape) == Produced([])
  {
    RunOneMore(actions, action);
    RunKeepsInv(actions);
    var w := Run(actions);
    var x := w.calls[c];
    assert CallOk(w.history, c, x);
    OnlyTheReReadGivesNoOp(w, action, c);
    ReadsLog(w.tables, w.history, x.request.stream);
    LogsPrefix(w.history, x.foldedAt, x.request.stream);
  }

  lemma OnlyTheReReadGivesNoOp(w: World, action: Action, c: nat)
    requires c in w.calls && w.calls[c].phase != Done(NoOp) && w.calls[c].request.Decide? && w.calls[c].request.enforce
    requires c in Step(w, action).calls && Step(w, action).calls[c].phase == Done(NoOp)
    requires w.calls[c].phase.Notifying? ==> IsCommit(w.calls[c].phase.outcome)
    ensures action == CheckTail(c) && w.calls[c].phase.Rechecking?
    ensures Mark(w.tables, w.calls[c].request.stream) == TailVersion(w.calls[c].seen)
  {
  }

  /** A call that did not end in a fresh commit stored nothing. */
  lemma {:induction false} OnlyCommitsStore(actions: seq<Action>, c: nat)
    requires c in Run(actions).calls && !Finished(Run(actions).calls[c])
    ensures forall i :: 0 <= i < |Run(actions).history| ==> Run(actions).history[i].call != c
  {
    RunKeepsInv(actions);
    var w := Run(actions);
    forall i | 0 <= i < |w.history| ensures w.history[i].call != c {
      assert EntryOk(w.calls, w.history, i);
    }
  }

  // ----- streams

  /** In every reachable state a stream reads as sequences 1 to n, in log order. */
  lemma {:induction false} StreamsCountFromOne(actions: seq<Action>, s: StreamId)
    ensures var rows := QueryEvents(Run(actions).tables, s);
            && |rows| == Mark(Run(actions).tables, s)
            && forall i :: 0 <= i < |rows| ==> rows[i].stream == s && rows[i].sequence == i + 1
  {
    RunKeepsInv(actions);
    var t := Run(actions).tables;
    assert DenseTo(RowsOf(t.events, s), s, Mark(t, s));
    DenseSorted(RowsOf(t.events, s), s, Mark(t, s));
  }

  /** Each commit is one contiguous block of its stream, and it stays there in every later state. */
  lemma {:induction false} CommitsAreBlocks(actions: seq<Action>, more: seq<Action>, i: nat)
    requires i < |Run(actions).history|
    ensures var e := Run(actions).history[i];
            var base := |LogOf(Logs(Run(actions).history[..i]), e.stream)|;
            var rows := QueryEvents(Run(actions + more).tables, e.stream);
            && base + |e.rows| <= |rows| && rows[base..base + |e.rows|] == e.rows
  {
    var h, h' := Run(actions).history, Run(actions + more).history;
    HistoryOnlyGrows(actions, more);
    assert h'[i] == h[i] && h'[..i] == h[..i];
    BlockOf(h', i);
    TablesRead(actions + more, h[i].stream);
  }

  lemma {:induction false} TablesRead(actions: seq<Action>, s: StreamId)
    ensures QueryEvents(Run(actions).tables, s) == LogOf(Logs(Run(actions).history), s)
  {
    RunKeepsInv(actions);
    ReadsLog(Run(actions).tables, Run(actions).history, s);
  }

  lemma {:induction false} BlockOf(h: seq<Entry>, i: nat)
    requires i < |h|
    ensures var base := |LogOf(Logs(h[..i]), h[i].stream)|;
            var log := LogOf(Logs(h), h[i].stream);
            base + |h[i].rows| <= |log| && log[base..base + |h[i].rows|] == h[i].rows
  {
    assert h[..i + 1] == h[..i] + [h[i]];
    HistoryGrows(h[..i], h[i]);
    LogsPrefix(h, i + 1, h[i].stream);
  }

  // ----- idempotency keys

  /** At most one commit ever takes a key, among all appenders and all calls. */
  lemma {:induction false} KeyCommitsOnce(actions: seq<Action>, i: nat, j: nat)
    requires i < |Run(actions).history| && j < |Run(actions).history|
    requires SlotOf(Run(actions).history[i]).Some? && SlotOf(Run(actions).history[i]) == SlotOf(Run(actions).history[j])
    ensures i == j
  {
    RunKeepsInv(actions);
    SlotsAreUnique(Run(actions).history, i, j);
  }

  lemma {:induction false} SlotsAreUnique(h: seq<Entry>, i: nat, j: nat)
    requires i < |h| && j < |h| && Sequential(h)
    requires SlotOf(h[i]).Some? && SlotOf(h[i]) == SlotOf(h[j])
    ensures i == j
  {
    if i > j { SlotsAreUnique(h, j, i); }
    if i < j {
      AtomicAt(h, j);
      SequentialPrefix(h, j);
      CommitHasClaim(h[..j], i);
    }
  }

  lemma {:induction false} SequentialPrefix(h: seq<Entry>, n: nat)
    requires Sequential(h) && n <= |h|
    ensures Sequential(h[..n])
  {
    if n < |h| {
      SequentialPrefix(h[..|h| - 1], n);
      assert h[..|h| - 1][..n] == h[..n];
    } else {
      assert h[..n] == h;
    }
  }

  function ReceiptIn(o: Outcome): Option<Receipt> {
    match o
    case Committed(r) => Some(r)
    case CacheHit(r) => Some(r)
    case _ => None
  }

  /** The commit that an append, decide or withSession success reports, under the key of the call. */
  lemma {:induction false} SuccessHasCommit(actions: seq<Action>, c: nat, o: Outcome)
    requires c in Run(actions).calls && Run(actions).calls[c].phase == Done(o)
    requires ReceiptIn(o).Some? && Run(actions).calls[c].key.Some?
    ensures var w := Run(actions);
            var x := w.calls[c];
            && !x.request.DecideOnce? && x.commit < |w.history|
            && SlotOf(w.history[x.commit]) == Some((StreamOf(x.request), x.key.value))
            && ReceiptIn(o).value == ReceiptOf(w.history[x.commit].rows)
  {
    RunKeepsInv(actions);
    var w := Run(actions);
    assert CallOk(w.history, c, w.calls[c]);
    if o.Committed? { CommitAt(actions, c); }
  }

  /** Every success for one stream and key reports the same sequences, event ids and timestamps. */
  lemma {:induction false} KeyHasOneReceipt(actions: seq<Action>, c: nat, d: nat, o: Outcome, p: Outcome)
    requires c in Run(actions).calls && Run(actions).calls[c].phase == Done(o) && ReceiptIn(o).Some?
    requires d in Run(actions).calls && Run(actions).calls[d].phase == Done(p) && ReceiptIn(p).Some?
    requires Run(actions).calls[c].key.Some? && Run(actions).calls[c].key == Run(actions).calls[d].key
    requires !Run(actions).calls[c].request.DecideOnce? && !Run(actions).calls[d].request.DecideOnce?
    requires StreamOf(Run(actions).calls[c].request) == StreamOf(Run(actions).calls[d].request)
    ensures ReceiptIn(o) == ReceiptIn(p)
    ensures o.Committed? && p.Committed? ==> c == d
  {
    SuccessHasCommit(actions, c, o);
    SuccessHasCommit(actions, d, p);
    var w := Run(actions);
    KeyCommitsOnce(actions, w.calls[c].commit, w.calls[d].commit);
    if o.Committed? { CommitAt(actions, c); }
    if p.Committed? { CommitAt(actions, d); }
  }

  // ----- decideOnce

  lemma {:induction false} OnceCommit(actions: seq<Action>, c: nat, result: string, first: bool)
    requires c in Run(actions).calls && Run(actions).calls[c].phase == Done(OnceResult(result, first))
    ensures var w := Run(actions);
            var x := w.calls[c];
            && x.request.DecideOnce? && x.commit < |w.history|
            && var e := w.history[x.commit];
               && e.request.DecideOnce? && e.request.id == x.request.id && e.request.digest == x.request.digest
               && e.result == result && Atomic(e, w.history[..x.commit])
  {
    RunKeepsInv(actions);
    var w := Run(actions);
    assert CallOk(w.history, c, w.calls[c]);
    AtomicAt(w.history, w.calls[c].commit);
  }

  /**
   * For one operation id there is at most one committed decision, every successful call returns its
   * result, and no call with another digest succeeds.
   */
  lemma {:induction false} OnceHasOneResult(actions: seq<Action>, i: nat, c: nat, result: string, first: bool)
    requires i < |Run(actions).history| && Run(actions).history[i].request.DecideOnce?
    requires c in Run(actions).calls && Run(actions).calls[c].phase == Done(OnceResult(result, first))
    requires Run(actions).calls[c].request.DecideOnce?
    requires Run(actions).calls[c].request.id == Run(actions).history[i].request.id
    ensures Run(actions).calls[c].commit == i
    ensures result == Run(actions).history[i].result
    ensures Run(actions).calls[c].request.digest == Run(actions).history[i].request.digest
  {
    OnceCommit(actions, c, result, first);
    KeyCommitsOnce(actions, i, Run(actions).calls[c].commit);
  }

  /** A keyed append that took an id on the reserved stream blocks decideOnce for that id for good. */
  lemma {:induction false} AppendBlocksOnce(actions: seq<Action>, i: nat, c: nat, result: string, first: bool)
    requires i < |Run(actions).history| && !Run(actions).history[i].request.DecideOnce?
    requires c in Run(actions).calls && Run(actions).calls[c].request.DecideOnce?
    requires SlotOf(Run(actions).history[i]) == Some((ONCE_STREAM, Run(actions).calls[c].request.id))
    ensures Run(actions).calls[c].phase != Done(OnceResult(result, first))
  {
    if Run(actions).calls[c].phase == Done(OnceResult(result, first)) {
      OnceCommit(actions, c, result, first);
      KeyCommitsOnce(actions, i, Run(actions).calls[c].commit);
    }
  }

  /** A commit that holds the id of a decideOnce call and is not a decision under its digest. */
  predicate Blocks(e: Entry, r: Request)
    requires r.DecideOnce?
  {
    SlotOf(e) == Some((ONCE_STREAM, r.id)) && !(e.request.DecideOnce? && e.request.digest == r.digest)
  }

  /** The claim of an id answers with another digest, or with none, exactly when some commit blocks the call. */
  lemma {:induction false} ClaimMismatchIff(actions: seq<Action>, r: Request)
    requires r.DecideOnce?
    ensures var w := Run(actions);
            ((ONCE_STREAM, r.id) in w.tables.claims && ClaimDigest(w.tables.claims[(ONCE_STREAM, r.id)]) != Some(r.digest))
            <==> exists i :: 0 <= i < |w.history| && Blocks(w.history[i], r)
  {
    RunKeepsInv(actions);
    var w := Run(actions);
    if (ONCE_STREAM, r.id) in w.tables.claims {
      ClaimHasCommit(w.history, (ONCE_STREAM, r.id));
    }
    if i :| 0 <= i < |w.history| && Blocks(w.history[i], r) {
      CommitHasClaim(w.history, i);
    }
  }

  /**
   * When decideOnce reports a digest mismatch: at the unlocked lookup and at the transaction alike, exactly when some
   * commit holds its id and is not a decision under its digest. That commit can be a keyed append on the reserved stream.
   */
  lemma {:induction false} OnceMismatchIff(actions: seq<Action>, c: nat, stamps: Stamps)
    requires c in Run(actions).calls && Run(actions).calls[c].request.DecideOnce?
    ensures var w := Run(actions);
            var x := w.calls[c];
            var blocked := exists i :: 0 <= i < |w.history| && Blocks(w.history[i], x.request);
            && (x.phase.Idle? ==>
                  (Run(actions + [LookupClaim(c)]).calls[c].phase == Done(Failed(DigestMismatch)) <==> blocked))
            && (x.phase.OnceWriting? ==>
                  (Run(actions + [Transact(c, stamps)]).calls[c].phase == Done(Failed(DigestMismatch)) <==> blocked))
  {
    ClaimMismatchIff(actions, Run(actions).calls[c].request);
    RunOneMore(actions, LookupClaim(c));
    RunOneMore(actions, Transact(c, stamps));
  }

  /** A keyed append commits on the reserved stream: three steps from the start. */
  lemma {:induction false} ReservedAppendCommits(key: Key, input: EventInput, stamps: Stamps) returns (actions: seq<Action>)
    requires key != ""
    ensures var w := Run(actions);
            && |w.history| == 1 && w.history[0].request == Append(ONCE_STREAM, [input], Some(key), None)
            && SlotOf(w.history[0]) == Some((ONCE_STREAM, key)) && w.calls.Keys == {0}
  {
    var r := Append(ONCE_STREAM, [input], Some(key), None);
    ReservedStreamIsValid();
    var first: seq<Action> := [];
    RunOneMore(first, Invoke(0, r));
    var invoked := first + [Invoke(0, r)];
    assert Run(invoked).calls == map[0 := OnInvoke(r)];
    RunOneMore(invoked, LookupClaim(0));
    var claimed := invoked + [LookupClaim(0)];
    assert Run(claimed).calls[0].phase == Writing(AppendRequest(ONCE_STREAM, Some(key), [input], None), 1);
    RunOneMore(claimed, Transact(0, stamps));
    actions := claimed + [Transact(0, stamps)];
    assert !Collides(RowsOf(EMPTY_TABLES.events, ONCE_STREAM), Finalize(ONCE_STREAM, Some(key), [input], 0, stamps));
  }

  lemma {:induction false} ReservedStreamIsValid()
    ensures ValidStreamId(ONCE_STREAM)
  {
    assert |ONCE_STREAM| == 26;
    forall i | 0 <= i < |ONCE_STREAM| ensures SafeChar(ONCE_STREAM[i]) {
    }
    assert SafeSegment(ONCE_STREAM);
  }

  /** The case happens: for every operation id there is a run in which decideOnce fails with no decision committed at all. */
  lemma {:induction false} OnceCanBeBlocked(key: Key, input: EventInput, stamps: Stamps, digest: string, decision: OnceClosure)
    returns (actions: seq<Action>)
    requires key != "" && digest != ""
    ensures var w := Run(actions);
            && 1 in w.calls && w.calls[1].request == DecideOnce(key, digest, decision)
            && w.calls[1].phase == Done(Failed(DigestMismatch))
            && forall i :: 0 <= i < |w.history| ==> !w.history[i].request.DecideOnce?
  {
    var before := ReservedAppendCommits(key, input, stamps);
    var invoke := Invoke(1, DecideOnce(key, digest, decision));
    RunOneMore(before, invoke);
    var invoked := before + [invoke];
    assert Blocks(Run(invoked).history[0], DecideOnce(key, digest, decision));
    OnceMismatchIff(invoked, 1, stamps);
    RunOneMore(invoked, LookupClaim(1));
    actions := invoked + [LookupClaim(1)];
  }

  // ----- a retry, and a lost race

  lemma {:induction false} ClaimOfCommit(actions: seq<Action>, i: nat)
    requires i < |Run(actions).history| && SlotOf(Run(actions).history[i]).Some?
    ensures SlotOf(Run(actions).history[i]).value in Run(actions).tables.claims
    ensures Run(actions).tables.claims[SlotOf(Run(actions).history[i]).value] == ClaimOf(Run(actions).history[i])
  {
    RunKeepsInv(actions);
    CommitHasClaim(Run(actions).history, i);
  }

  lemma {:induction false} RunOneMore(actions: seq<Action>, action: Action)
    ensures Run(actions + [action]) == Step(Run(actions), action)
  {
    assert (actions + [action])[..|actions|] == actions;
  }

  /** Once a key is taken, a later append under it is a cache hit of that commit, whatever it wants to store. */
  lemma {:induction false} RetryHitsTheClaim(actions: seq<Action>, i: nat, c: nat)
    requires i < |Run(actions).history| && !Run(actions).history[i].request.DecideOnce?
    requires c in Run(actions).calls && Run(actions).calls[c].phase.Claiming?
    requires var a := Run(actions).calls[c].phase.append;
             WellFormed(a) && a.key.Some? && SlotOf(Run(actions).history[i]) == Some((a.stream, a.key.value))
    ensures var w' := Run(actions + [LookupClaim(c)]);
            && w'.tables == Run(actions).tables && c in w'.calls
            && w'.calls[c].phase == Done(CacheHit(ReceiptOf(Run(actions).history[i].rows)))
  {
    ClaimOfCommit(actions, i);
    RunOneMore(actions, LookupClaim(c));
  }

  /** Two callers that both missed the lookup: the transaction of the loser fails, and its re-read finds the winner. */
  lemma {:induction false} LoserReadsTheWinner(actions: seq<Action>, i: nat, c: nat, stamps: Stamps)
    requires i < |Run(actions).history| && !Run(actions).history[i].request.DecideOnce?
    requires c in Run(actions).calls && Run(actions).calls[c].phase.Writing?
    requires var a := Run(actions).calls[c].phase.append;
             && a.key.Some? && SlotOf(Run(actions).history[i]) == Some((a.stream, a.key.value))
             && (a.expected.Some? ==> a.expected.value == Mark(Run(actions).tables, a.stream))
    ensures var w' := Run(actions + [Transact(c, stamps)] + [Reread(c)]);
            && w'.tables == Run(actions).tables && c in w'.calls
            && w'.calls[c].phase == Done(CacheHit(ReceiptOf(Run(actions).history[i].rows)))
  {
    ClaimOfCommit(actions, i);
    RunOneMore(actions, Transact(c, stamps));
    RunOneMore(actions + [Transact(c, stamps)], Reread(c));
    LoserStep(Run(actions), c, stamps);
  }

  lemma LoserStep(w: World, c: nat, stamps: Stamps)
    requires c in w.calls && w.calls[c].phase.Writing?
    requires var a := w.calls[c].phase.append;
             && a.key.Some? && (a.stream, a.key.value) in w.tables.claims
             && w.tables.claims[(a.stream, a.key.value)].payload.Events?
             && (a.expected.Some? ==> a.expected.value == Mark(w.tables, a.stream))
    ensures var a := w.calls[c].phase.append;
            var w' := Step(Step(w, Transact(c, stamps)), Reread(c));
            && w'.tables == w.tables && c in w'.calls
            && w'.calls[c].phase == Done(CacheHit(w.tables.claims[(a.stream, a.key.value)].receipt))
  {
  }

  /** The same race for decideOnce: the loser never commits, and it succeeds exactly under the same digest. */
  lemma {:induction false} OnceLoserReadsTheWinner(actions: seq<Action>, i: nat, c: nat, stamps: Stamps)
    requires i < |Run(actions).history| && Run(actions).history[i].request.DecideOnce?
    requires c in Run(actions).calls && Run(actions).calls[c].request.DecideOnce?
    requires Run(actions).calls[c].request.id == Run(actions).history[i].request.id
    requires Run(actions).calls[c].phase.OnceWriting?
    ensures var e := Run(actions).history[i];
            var w' := Run(actions + [Transact(c, stamps)]);
            && w'.tables == Run(actions).tables && c in w'.calls
            && w'.calls[c].phase ==
                 if Run(actions).calls[c].request.digest == e.request.digest then Done(OnceResult(e.result, false))
                 else Done(Failed(DigestMismatch))
  {
    ClaimOfCommit(actions, i);
    RunOneMore(actions, Transact(c, stamps));
  }

  // ----- the commit hook

  /**
   * The hook and the history: each commit has one call, whose hook run is still pending or is in the list of runs once;
   * each run belongs to a commit; and a pending run is what the next `Notify` of that call adds.
   */
  lemma {:induction false} HookRunsOncePerCommit(actions: seq<Action>)
    ensures var w := Run(actions);
            && (forall i, j :: 0 <= i < j < |w.notified| ==> w.notified[i] != w.notified[j])
            && (forall i :: 0 <= i < |w.history| ==>
                  && w.history[i].call in w.calls
                  && (w.history[i].call in w.notified <==> w.calls[w.history[i].call].phase.Done?)
                  && (w.history[i].call !in w.notified ==>
                        Run(actions + [Notify(w.history[i].call)]).notified == w.notified + [w.history[i].call]))
            && (forall c :: c in w.notified ==> exists i :: 0 <= i < |w.history| && w.history[i].call == c)
            && (forall i, j :: 0 <= i < j < |w.history| ==> w.history[i].call != w.history[j].call)
  {
    RunKeepsInv(actions);
    var w := Run(actions);
    forall i | 0 <= i < |w.history|
      ensures w.history[i].call in w.calls && w.calls[w.history[i].call].commit == i
      ensures w.history[i].call in w.notified <==> w.calls[w.history[i].call].phase.Done?
      ensures w.history[i].call !in w.notified ==>
                Run(actions + [Notify(w.history[i].call)]).notified == w.notified + [w.history[i].call]
    {
      assert EntryOk(w.calls, w.history, i);
      RunOneMore(actions, Notify(w.history[i].call));
    }
    forall c | c in w.notified ensures exists i :: 0 <= i < |w.history| && w.history[i].call == c {
      assert CallOk(w.history, c, w.calls[c]);
    }
  }
}
