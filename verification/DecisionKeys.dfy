/**
 * The idempotency keys of decisions. A decision alone commits exactly when no earlier commit holds its key, and two decisions
 * have one key exactly when their ids join to one text.
 */
module DecisionKeys {
  import opened Wrappers
  import opened EventTables
  import opened AppendProtocol
  import opened AppendSafety
  import opened CommittedRows
  import opened AppendCalls

  // ----- when two decisions have one key

  function Pair(a: string, b: string): string {
    a + ":" + b
  }

  function Kind(r: Request): string
    requires r.Decide?
  {
    if r.session then "with-session" else "decide"
  }

  /**
   * Two decisions on one stream have the same key: under operation ids when reducer and id join to one text, under uuids of
   * one kind likewise, and across the two only on a stream that is named like the kind.
   */
  predicate SameKey(a: Request, u: string, b: Request, v: string)
    requires a.Decide? && b.Decide?
  {
    if a.operation.Some? && b.operation.Some? then
      Pair(a.reducerId, a.operation.value) == Pair(b.reducerId, b.operation.value)
    else if a.operation.Some? then
      a.stream == Kind(b) && Pair(a.reducerId, a.operation.value) == Pair(b.stream, Pair(b.reducerId, v))
    else if b.operation.Some? then
      b.stream == Kind(a) && Pair(b.reducerId, b.operation.value) == Pair(a.stream, Pair(a.reducerId, u))
    else a.session == b.session && Pair(a.reducerId, u) == Pair(b.reducerId, v)
  }

  lemma ShorterFirst(a: string, b: string, c: string, d: string)
    requires |a| < |c| && ':' !in c
    ensures Pair(a, b) != Pair(c, d)
  {
    assert Pair(a, b)[|a|] == ':' && Pair(c, d)[|a|] == c[|a|];
  }

  /** Texts with no colon before theirs split at it. */
  lemma {:induction false} PairsSplit(a: string, b: string, c: string, d: string)
    requires ':' !in a && ':' !in c
    ensures Pair(a, b) == Pair(c, d) <==> a == c && b == d
  {
    if |a| < |c| { ShorterFirst(a, b, c, d); }
    if |c| < |a| { ShorterFirst(c, d, a, b); }
    var p, q := Pair(a, b), Pair(c, d);
    if p == q {
      assert p[..|a|] == a && q[..|c|] == c && p[|a| + 1..] == b && q[|c| + 1..] == d;
    }
  }

  lemma {:induction false} KeyIsPairs(r: Request, uuid: string)
    requires r.Decide?
    ensures KeyText(r, uuid) == if r.operation.Some? then Pair(r.stream, Pair(r.reducerId, r.operation.value))
                                else Pair(Kind(r), Pair(r.stream, Pair(r.reducerId, uuid)))
  {
    if r.operation.Some? {
      JoinThree(r.stream, r.reducerId, r.operation.value);
      assert r.stream + ":" + r.reducerId + ":" + r.operation.value == Pair(r.stream, Pair(r.reducerId, r.operation.value));
    } else {
      JoinFour(Kind(r), r.stream, r.reducerId, uuid);
      assert Kind(r) + ":" + r.stream + ":" + r.reducerId + ":" + uuid == Pair(Kind(r), Pair(r.stream, Pair(r.reducerId, uuid)));
    }
  }

  lemma {:induction false} ValidHasNoColon(s: StreamId)
    requires ValidStreamId(s)
    ensures ':' !in s
  {
    if SafeSegment(s) {
      SegmentHasNoColon(s);
    } else {
      var i :| 0 <= i < |s| && s[i] == '/' && SafeSegment(s[..i]) && SafeSegment(s[i + 1..]);
      SegmentHasNoColon(s[..i]);
      SegmentHasNoColon(s[i + 1..]);
      hide SafeSegment;
      assert s == s[..i] + ['/'] + s[i + 1..];
    }
  }

  lemma SegmentHasNoColon(s: string)
    requires SafeSegment(s)
    ensures ':' !in s
  {
  }

  lemma {:induction false} KeysAgreeIff(a: Request, u: string, b: Request, v: string)
    requires a.Decide? && b.Decide? && a.stream == b.stream && ValidStreamId(a.stream)
    ensures KeyText(a, u) == KeyText(b, v) <==> SameKey(a, u, b, v)
  {
    KeyIsPairs(a, u);
    KeyIsPairs(b, v);
    ValidHasNoColon(a.stream);
    KindHasNoColon(a);
    KindHasNoColon(b);
    PairsSplit(a.stream, Pair(a.reducerId, a.operation.GetOr("")), b.stream, Pair(b.reducerId, b.operation.GetOr("")));
    PairsSplit(Kind(a), Pair(a.stream, Pair(a.reducerId, u)), Kind(b), Pair(b.stream, Pair(b.reducerId, v)));
    PairsSplit(a.stream, Pair(a.reducerId, u), b.stream, Pair(b.reducerId, v));
    PairsSplit(a.stream, Pair(a.reducerId, a.operation.GetOr("")), Kind(b), Pair(b.stream, Pair(b.reducerId, v)));
    PairsSplit(Kind(a), Pair(a.stream, Pair(a.reducerId, u)), b.stream, Pair(b.reducerId, b.operation.GetOr("")));
    hide KeyText, Pair, ValidStreamId;
  }

  lemma KindHasNoColon(r: Request)
    requires r.Decide?
    ensures ':' !in Kind(r)
    ensures Kind(r) == "decide" <==> !r.session
  {
    assert "decide" != "with-session" by { assert |"decide"| != |"with-session"|; }
  }

  // ----- which decisions commit

  /**
   * A commit that holds the key of a decision: an append under that text, a once-only decision on the reserved stream with that
   * text as its id, or an earlier decision with the same key.
   */
  ghost predicate HoldsKey(e: Entry, r: Request, uuid: string)
    requires r.Decide?
  {
    match e.request
    case Append(s, _, key, _) => s == r.stream && key == Some(KeyText(r, uuid))
    case DecideOnce(id, _, _) => r.stream == ONCE_STREAM && id == KeyText(r, uuid)
    case Decide(s, _, _, _, _, _, _, _) =>
      s == r.stream && exists u :: e.key == Some(KeyText(e.request, u)) && SameKey(e.request, u, r, uuid)
  }

  /** The key of a decision was made from the uuid of a run of its closure. */
  ghost predicate Drawn(actions: seq<Action>, c: nat, x: Call, n: nat) {
    && n < |actions| && actions[n].RunClosure? && actions[n].call == c
    && x.request.Decide? && x.key == Some(KeyText(x.request, actions[n].uuid))
  }

  lemma KeyChanges(w: World, action: Action, c: nat)
    requires c in Step(w, action).calls && Step(w, action).calls[c].request.Decide? && Step(w, action).calls[c].key.Some?
    ensures c in w.calls && w.calls[c].request == Step(w, action).calls[c].request
    ensures || w.calls[c].key == Step(w, action).calls[c].key
            || (action.RunClosure? && action.call == c
                && Step(w, action).calls[c].key.value == DecideKey(w.calls[c].request, action.uuid))
  {
    hide DecideKey, CommitOf, RunAppend, RunOnce, QueryEvents, ValidStreamId;
  }

  lemma {:induction false} KeysAreDrawn(actions: seq<Action>, c: nat) returns (n: nat)
    requires c in Run(actions).calls && Run(actions).calls[c].request.Decide? && Run(actions).calls[c].key.Some?
    ensures Drawn(actions, c, Run(actions).calls[c], n)
  {
    var last := |actions| - 1;
    var before, action := actions[..last], actions[last];
    assert Run(actions) == Step(Run(before), action);
    hide Run, Step, KeyText;
    KeyChanges(Run(before), action, c);
    if Run(before).calls[c].key == Run(actions).calls[c].key {
      n := KeysAreDrawn(before, c);
    } else {
      n := last;
      KeyIsItsParts(Run(actions).calls[c].request, action.uuid);
    }
  }

  /** The claims are free for a decision exactly when no commit holds its key. */
  lemma {:induction false} FreeIff(actions: seq<Action>, r: Request, uuid: string)
    requires r.Decide? && ValidStreamId(r.stream)
    ensures var w := Run(actions);
            (r.stream, KeyText(r, uuid)) !in w.tables.claims <==> forall i :: 0 <= i < |w.history| ==> !HoldsKey(w.history[i], r, uuid)
  {
    var w, slot := Run(actions), (r.stream, KeyText(r, uuid));
    RunKeepsInv(actions);
    forall i | 0 <= i < |w.history| ensures HoldsKey(w.history[i], r, uuid) <==> SlotOf(w.history[i]) == Some(slot) {
      HoldsIff(actions, i, r, uuid);
    }
    if slot in w.tables.claims {
      ClaimHasCommit(w.history, slot);
    }
    if i :| 0 <= i < |w.history| && HoldsKey(w.history[i], r, uuid) {
      CommitHasClaim(w.history, i);
    }
  }

  lemma {:induction false} HoldsIff(actions: seq<Action>, i: nat, r: Request, uuid: string)
    requires i < |Run(actions).history| && r.Decide? && ValidStreamId(r.stream)
    ensures HoldsKey(Run(actions).history[i], r, uuid) <==> SlotOf(Run(actions).history[i]) == Some((r.stream, KeyText(r, uuid)))
  {
    var w := Run(actions);
    var e := w.history[i];
    RunKeepsInv(actions);
    assert EntryOk(w.calls, w.history, i);
    AtomicAt(w.history, i);
    assert e.request.DecideOnce? || e.stream == e.request.stream;
    if e.request.Decide? {
      var n := KeysAreDrawn(actions, e.call);
      var u := actions[n].uuid;
      assert e.key == Some(KeyText(e.request, u));
      hide Run, KeyText, SameKey, ValidStreamId;
      if e.stream == r.stream {
        KeysAgreeIff(e.request, u, r, uuid);
        forall v | e.key == Some(KeyText(e.request, v)) ensures SameKey(e.request, v, r, uuid) <==> KeyText(e.request, v) == KeyText(r, uuid) {
          KeysAgreeIff(e.request, v, r, uuid);
        }
      }
    }
  }

  /**
   * A decision alone whose closure gives events commits if and only if no commit holds its key. It then stores exactly these
   * events at the end of its stream.
   */
  lemma {:induction false} DecisionCommitsIff(actions: seq<Action>, c: nat, r: Request, tape: nat, uuid: string, stamps: Stamps)
    returns (receipt: Receipt)
    requires c !in Run(actions).calls && r.Decide? && r.reducer.Some? && ValidStreamId(r.stream)
    requires r.session && r.operation.None? ==> r.allowNonIdempotent
    requires var log := QueryEvents(Run(actions).tables, r.stream);
             var out := r.closure(Fold(r.reducer.value, log), |log|, tape);
             out.Produced? && out.inputs != []
    ensures var w, now := Run(actions), Run(actions + AloneSteps(c, r, tape, uuid, stamps));
            var log := QueryEvents(w.tables, r.stream);
            var inputs := r.closure(Fold(r.reducer.value, log), |log|, tape).inputs;
            && c in now.calls && now.calls[c].phase.Done?
            && var free := forall i :: 0 <= i < |w.history| ==> !HoldsKey(w.history[i], r, uuid);
               && (now.calls[c].phase.outcome.Committed? <==> free)
               && (free ==> now.calls[c].phase.outcome == Committed(receipt)
                            && Stores(w.tables, now.tables, r.stream, inputs, Some(KeyText(r, uuid)), stamps, receipt))
  {
    receipt := DecideAlone(actions, c, r, tape, uuid, stamps);
    FreeIff(actions, r, uuid);
    hide Run, HoldsKey, Stores, KeyText, QueryEvents, Fold, ValidStreamId;
  }

  /** The plain case: no colon in a reducer id, a stream with an ordinary name, and no append under the text of the key. */
  ghost predicate PlainKeys(h: seq<Entry>, r: Request, uuid: string)
    requires r.Decide?
  {
    && ':' !in r.reducerId && r.stream != ONCE_STREAM && r.stream != "decide" && r.stream != "with-session"
    && forall i :: 0 <= i < |h| && !h[i].request.DecideOnce? && h[i].request.stream == r.stream ==>
         if h[i].request.Decide? then ':' !in h[i].request.reducerId else h[i].request.key != Some(KeyText(r, uuid))
  }

  /** No earlier decision on the stream and the reducer had the operation id, or, without one, no run of a closure the uuid. */
  ghost predicate NewId(actions: seq<Action>, h: seq<Entry>, r: Request, uuid: string)
    requires r.Decide?
  {
    if r.operation.Some? then
      forall i :: 0 <= i < |h| && h[i].request.Decide? && h[i].request.stream == r.stream && h[i].request.reducerId == r.reducerId ==>
        h[i].request.operation != r.operation
    else forall n :: 0 <= n < |actions| && actions[n].RunClosure? ==> actions[n].uuid != uuid
  }

  lemma {:induction false} NewIdIsFree(actions: seq<Action>, i: nat, r: Request, uuid: string)
    requires i < |Run(actions).history| && r.Decide? && ValidStreamId(r.stream)
    requires PlainKeys(Run(actions).history, r, uuid) && NewId(actions, Run(actions).history, r, uuid)
    ensures !HoldsKey(Run(actions).history[i], r, uuid)
  {
    var w := Run(actions);
    var e := w.history[i];
    if HoldsKey(e, r, uuid) && e.request.Decide? {
      var q := e.request;
      var u :| e.key == Some(KeyText(q, u)) && SameKey(q, u, r, uuid);
      RunKeepsInv(actions);
      assert EntryOk(w.calls, w.history, i);
      var n := KeysAreDrawn(actions, e.call);
      KeysAgreeIff(q, u, q, actions[n].uuid);
      hide Run, KeyText, ValidStreamId, Pair;
      PairsSplit(q.reducerId, q.operation.GetOr(u), r.reducerId, r.operation.GetOr(uuid));
      PairsSplit(q.reducerId, u, q.reducerId, actions[n].uuid);
    }
  }

  /** In the plain case a decision with a new id, alone and with events from its closure, commits from every reachable state. */
  lemma {:induction false} NewDecisionCommits(actions: seq<Action>, c: nat, r: Request, tape: nat, uuid: string, stamps: Stamps)
    returns (receipt: Receipt)
    requires c !in Run(actions).calls && r.Decide? && r.reducer.Some? && ValidStreamId(r.stream)
    requires r.session && r.operation.None? ==> r.allowNonIdempotent
    requires var log := QueryEvents(Run(actions).tables, r.stream);
             var out := r.closure(Fold(r.reducer.value, log), |log|, tape);
             out.Produced? && out.inputs != []
    requires PlainKeys(Run(actions).history, r, uuid) && NewId(actions, Run(actions).history, r, uuid)
    ensures var now := Run(actions + AloneSteps(c, r, tape, uuid, stamps));
            c in now.calls && now.calls[c].phase == Done(Committed(receipt))
  {
    receipt := DecisionCommitsIff(actions, c, r, tape, uuid, stamps);
    forall i | 0 <= i < |Run(actions).history| ensures !HoldsKey(Run(actions).history[i], r, uuid) {
      NewIdIsFree(actions, i, r, uuid);
    }
  }

  /** A decision whose closure always gives one event. */
  function OneEvent(s: StreamId, reducerId: string, op: string, input: EventInput): Request {
    Decide(s, reducerId, Some(Reducer("", (state: State, row: Row) => state)),
           (state: State, version: nat, tape: nat) => Produced([input]), Some(op), true, false, false)
  }

  /**
   * A colon in a reducer id: the operation `b:d` of reducer `a` and the operation `d` of reducer `a:b` have one key. The
   * second decision stores nothing and reports the rows of the first.
   */
  lemma {:induction false} ColonCollides(s: StreamId, a: string, b: string, d: string, input: EventInput, stamps: Stamps)
    returns (one: seq<Action>, both: seq<Action>, receipt: Receipt)
    requires ValidStreamId(s)
    ensures one == AloneSteps(0, OneEvent(s, a, b + ":" + d, input), 0, "", stamps)
    ensures both == one + AloneSteps(1, OneEvent(s, a + ":" + b, d, input), 0, "", stamps)
    ensures var w, now := Run(one), Run(both);
            && 0 in w.calls && w.calls[0].phase == Done(Committed(receipt)) && |QueryEvents(w.tables, s)| == 1
            && 0 in now.calls && now.calls[0] == w.calls[0]
            && 1 in now.calls && now.calls[1].phase == Done(CacheHit(receipt)) && now.tables == w.tables
  {
    var first, second := OneEvent(s, a, b + ":" + d, input), OneEvent(s, a + ":" + b, d, input);
    one := AloneSteps(0, first, 0, "", stamps);
    both := one + AloneSteps(1, second, 0, "", stamps);
    assert [] + one == one;
    KeyIsPairs(first, "");
    KeyIsPairs(second, "");
    assert Pair(a, b + ":" + d) == Pair(a + ":" + b, d);
    assert Run([]) == START && START.tables.claims == map[];
    receipt := DecideAlone([], 0, first, 0, "", stamps);
    AloneTouches([], 0, first, 0, "", stamps, 1);
    hide Run, KeyText, Pair, Stores;
    var again := DecideAlone(one, 1, second, 0, "", stamps);
    AloneTouches(one, 1, second, 0, "", stamps, 0);
  }
}
