/**
 * The per-stream mutex of one appender: a chain of promises. A ticket stands for one call of
 * `runExclusive`, and its `next` promise is resolved exactly when the ticket has left. The three
 * methods are the code up to `await prior`, the start of the section, and the `finally` block.
 */
module StreamLocks {
  import opened Wrappers

  type StreamId = string

  datatype Phase = Waiting | Running | Left

  datatype Ticket = Ticket(stream: StreamId, prior: Option<nat>, phase: Phase)

  datatype Locks = Locks(tails: map<StreamId, nat>, tickets: seq<Ticket>)

  datatype LockAction = Arrive(stream: StreamId) | Start(ticket: nat) | Leave(ticket: nat)

  const IDLE := Locks(map[], [])

  function Enter(l: Locks, s: StreamId): Locks {
    Locks(l.tails[s := |l.tickets|],
          l.tickets + [Ticket(s, if s in l.tails then Some(l.tails[s]) else None, Waiting)])
  }

  predicate CanStart(l: Locks, t: nat) {
    && t < |l.tickets| && l.tickets[t].phase.Waiting?
    && match l.tickets[t].prior
       case None => true
       case Some(p) => p < |l.tickets| && l.tickets[p].phase.Left?
  }

  function Begin(l: Locks, t: nat): Locks {
    if CanStart(l, t) then l.(tickets := l.tickets[t := l.tickets[t].(phase := Running)]) else l
  }

  /** The section resolved or threw: the promise resolves, and the last caller clears the map entry. */
  function Finish(l: Locks, t: nat): Locks {
    if t < |l.tickets| && l.tickets[t].phase.Running? then
      var s := l.tickets[t].stream;
      Locks(if s in l.tails && l.tails[s] == t then l.tails - {s} else l.tails,
            l.tickets[t := l.tickets[t].(phase := Left)])
    else l
  }

  function Step(l: Locks, a: LockAction): Locks {
    match a
    case Arrive(s) => Enter(l, s)
    case Start(t) => Begin(l, t)
    case Leave(t) => Finish(l, t)
  }

  function Run(actions: seq<LockAction>): Locks {
    if actions == [] then IDLE else Step(Run(actions[..|actions| - 1]), actions[|actions| - 1])
  }

  // ----- the invariant: the tickets that have not left form one chain per stream

  predicate Active(l: Locks, t: nat, s: StreamId) {
    t < |l.tickets| && l.tickets[t].stream == s && !l.tickets[t].phase.Left?
  }

  /** `p` is the newest earlier ticket of the stream of `t`, or there is none. */
  ghost predicate PriorIs(l: Locks, t: nat, p: Option<nat>)
    requires t < |l.tickets|
  {
    match p
    case None => forall u :: 0 <= u < t ==> !Active(l, u, l.tickets[t].stream)
    case Some(v) =>
      && v < t && l.tickets[v].stream == l.tickets[t].stream
      && forall u :: v < u < t ==> !Active(l, u, l.tickets[t].stream)
  }

  ghost predicate Chained(l: Locks) {
    && (forall t :: 0 <= t < |l.tickets| ==> PriorIs(l, t, l.tickets[t].prior))
    && (forall t, u :: 0 <= u < t < |l.tickets| && l.tickets[u].stream == l.tickets[t].stream ==>
          l.tickets[t].phase.Waiting? || l.tickets[u].phase.Left?)
    && (forall s :: s in l.tails ==> l.tails[s] < |l.tickets| && Active(l, l.tails[s], s))
    && (forall s, t :: Active(l, t, s) ==> s in l.tails && t <= l.tails[s])
  }

  lemma {:induction false} EnterKeeps(l: Locks, s: StreamId)
    requires Chained(l)
    ensures Chained(Enter(l, s))
  {
    var l' := Enter(l, s);
    forall u, r | 0 <= u < |l.tickets| ensures Active(l', u, r) == Active(l, u, r) {
    }
    forall t | 0 <= t < |l'.tickets| ensures PriorIs(l', t, l'.tickets[t].prior) {
      if t < |l.tickets| { assert PriorIs(l, t, l.tickets[t].prior); }
    }
  }

  lemma {:induction false} BeginKeeps(l: Locks, t: nat)
    requires Chained(l) && CanStart(l, t)
    ensures Chained(Begin(l, t))
  {
    var l' := Begin(l, t);
    forall u, r | 0 <= u < |l.tickets| ensures Active(l', u, r) == Active(l, u, r) {
    }
    forall u | 0 <= u < |l'.tickets| ensures PriorIs(l', u, l'.tickets[u].prior) {
      assert PriorIs(l, u, l.tickets[u].prior);
    }
    forall u | 0 <= u < t && l.tickets[u].stream == l.tickets[t].stream ensures l.tickets[u].phase.Left? {
      OlderHaveLeft(l, t, u);
    }
  }

  /** When the prior of a ticket has left, every older ticket of the stream has left. */
  lemma {:induction false} OlderHaveLeft(l: Locks, t: nat, u: nat)
    requires Chained(l) && CanStart(l, t) && u < t && l.tickets[u].stream == l.tickets[t].stream
    ensures l.tickets[u].phase.Left?
  {
    assert PriorIs(l, t, l.tickets[t].prior);
    if !l.tickets[u].phase.Left? {
      assert Active(l, u, l.tickets[t].stream);
    }
  }

  lemma ActiveAfterFinish(l: Locks, t: nat, u: nat, s: StreamId)
    requires t < |l.tickets| && l.tickets[t].phase.Running?
    ensures Active(Finish(l, t), u, s) <==> Active(l, u, s) && u != t
  {
  }

  lemma {:induction false} FinishKeepsPrior(l: Locks, t: nat, u: nat)
    requires t < |l.tickets| && l.tickets[t].phase.Running? && u < |l.tickets| && PriorIs(l, u, l.tickets[u].prior)
    ensures PriorIs(Finish(l, t), u, Finish(l, t).tickets[u].prior)
  {
    forall v ensures Active(Finish(l, t), v, l.tickets[u].stream) ==> Active(l, v, l.tickets[u].stream) {
      ActiveAfterFinish(l, t, v, l.tickets[u].stream);
    }
  }

  /** The map entry of a stream still names its newest active ticket. */
  lemma {:induction false} FinishKeepsTail(l: Locks, t: nat, s: StreamId)
    requires Chained(l) && t < |l.tickets| && l.tickets[t].phase.Running?
    ensures var l' := Finish(l, t);
            && (s in l'.tails ==> l'.tails[s] < |l'.tickets| && Active(l', l'.tails[s], s))
            && forall u :: Active(l', u, s) ==> s in l'.tails && u <= l'.tails[s]
  {
    assert Active(l, t, l.tickets[t].stream);
    forall u ensures Active(Finish(l, t), u, s) <==> Active(l, u, s) && u != t {
      ActiveAfterFinish(l, t, u, s);
    }
  }

  lemma {:induction false} FinishKeeps(l: Locks, t: nat)
    requires Chained(l) && t < |l.tickets| && l.tickets[t].phase.Running?
    ensures Chained(Finish(l, t))
  {
    var l' := Finish(l, t);
    forall u | 0 <= u < |l'.tickets| ensures PriorIs(l', u, l'.tickets[u].prior) {
      FinishKeepsPrior(l, t, u);
    }
    forall s
      ensures s in l'.tails ==> l'.tails[s] < |l'.tickets| && Active(l', l'.tails[s], s)
      ensures forall u :: Active(l', u, s) ==> s in l'.tails && u <= l'.tails[s]
    {
      FinishKeepsTail(l, t, s);
    }
    hide PriorIs, Active;
  }

  lemma {:induction false} RunIsChained(actions: seq<LockAction>)
    ensures Chained(Run(actions))
  {
    if actions != [] {
      RunIsChained(actions[..|actions| - 1]);
      var l := Run(actions[..|actions| - 1]);
      match actions[|actions| - 1]
      case Arrive(s) => EnterKeeps(l, s);
      case Start(t) => if CanStart(l, t) { BeginKeeps(l, t); }
      case Leave(t) => if t < |l.tickets| && l.tickets[t].phase.Running? { FinishKeeps(l, t); }
    }
  }

  // ----- what every schedule keeps

  /** Mutual exclusion: one section at a time for each stream. */
  lemma {:induction false} OneSectionPerStream(actions: seq<LockAction>, t: nat, u: nat)
    requires var l := Run(actions); t < |l.tickets| && u < |l.tickets|
    requires var l := Run(actions); l.tickets[t].phase.Running? && l.tickets[u].phase.Running?
    requires var l := Run(actions); l.tickets[t].stream == l.tickets[u].stream
    ensures t == u
  {
    RunIsChained(actions);
  }

  /** Arrival order: a section starts only after every earlier caller of its stream left. */
  lemma {:induction false} SectionsRunInArrivalOrder(actions: seq<LockAction>, t: nat, u: nat)
    requires var l := Run(actions); u < t < |l.tickets| && l.tickets[u].stream == l.tickets[t].stream
    requires var l := Run(actions); !l.tickets[t].phase.Waiting?
    ensures Run(actions).tickets[u].phase.Left?
  {
    RunIsChained(actions);
  }

  /** A stream has a map entry exactly when it has a holder or a waiter. */
  lemma {:induction false} EntryIffHeldOrAwaited(actions: seq<LockAction>, s: StreamId)
    ensures s in Run(actions).tails <==> exists t :: Active(Run(actions), t, s)
  {
    RunIsChained(actions);
  }

  /**
   * No caller is stranded: while a stream has a caller that has not left, the oldest one runs or can
   * start. A section that throws leaves by the same action, so it wakes the next caller too.
   */
  lemma {:induction false} OldestCanRun(actions: seq<LockAction>, t: nat)
    requires t < |Run(actions).tickets| && Active(Run(actions), t, Run(actions).tickets[t].stream)
    requires forall u :: 0 <= u < t ==> !Active(Run(actions), u, Run(actions).tickets[t].stream)
    ensures Run(actions).tickets[t].phase.Running? || CanStart(Run(actions), t)
  {
    RunIsChained(actions);
    var l := Run(actions);
    assert PriorIs(l, t, l.tickets[t].prior);
    if l.tickets[t].prior.Some? {
      assert !Active(l, l.tickets[t].prior.value, l.tickets[t].stream);
    }
  }

  lemma {:induction false} RunOneMore(actions: seq<LockAction>, a: LockAction)
    ensures Run(actions + [a]) == Step(Run(actions), a)
  {
    assert (actions + [a])[..|actions|] == actions;
  }

  /** An arrival adds one waiting caller of its stream after all others. */
  lemma {:induction false} ArrivalWaits(actions: seq<LockAction>, s: StreamId)
    ensures var l, now := Run(actions), Run(actions + [Arrive(s)]);
            && |now.tickets| == |l.tickets| + 1 && now.tickets[..|l.tickets|] == l.tickets
            && now.tickets[|l.tickets|].stream == s && now.tickets[|l.tickets|].phase.Waiting?
  {
    RunOneMore(actions, Arrive(s));
  }

  /** How many callers have not left. */
  function Unfinished(tickets: seq<Ticket>): nat {
    if tickets == [] then 0
    else Unfinished(tickets[..|tickets| - 1]) + if tickets[|tickets| - 1].phase.Left? then 0 else 1
  }

  lemma {:induction false} OneMoreLeft(tickets: seq<Ticket>, t: nat, x: Ticket)
    requires t < |tickets| && !tickets[t].phase.Left? && x.phase.Left?
    ensures Unfinished(tickets[t := x]) == Unfinished(tickets) - 1
  {
    var n := |tickets| - 1;
    var now := tickets[t := x];
    if t < n {
      assert now[..n] == tickets[..n][t := x];
      OneMoreLeft(tickets[..n], t, x);
    } else {
      assert now[..n] == tickets[..n];
    }
  }

  /** The oldest caller that has not left, if there is one. */
  lemma {:induction false} Oldest(tickets: seq<Ticket>) returns (t: nat)
    ensures t <= |tickets| && (forall u :: 0 <= u < t ==> tickets[u].phase.Left?)
    ensures t < |tickets| ==> !tickets[t].phase.Left?
  {
    if tickets == [] { return 0; }
    var n := |tickets| - 1;
    t := Oldest(tickets[..n]);
    if t == n && tickets[n].phase.Left? { t := n + 1; }
  }

  /** It runs its section, if it does not yet, and leaves. */
  lemma {:induction false} OldestFinishes(actions: seq<LockAction>, t: nat) returns (more: seq<LockAction>)
    requires var l := Run(actions);
             t < |l.tickets| && !l.tickets[t].phase.Left? && forall u :: 0 <= u < t ==> l.tickets[u].phase.Left?
    ensures var l, now := Run(actions), Run(actions + more);
            now.tickets == l.tickets[t := l.tickets[t].(phase := Left)]
  {
    var l := Run(actions);
    OldestCanRun(actions, t);
    var starting := if l.tickets[t].phase.Running? then [] else [Start(t)];
    var begun := actions + starting;
    if starting == [] { assert begun == actions; } else { RunOneMore(actions, Start(t)); }
    RunOneMore(begun, Leave(t));
    more := starting + [Leave(t)];
    assert actions + more == begun + [Leave(t)];
  }

  /** The callers of a state, all of them gone. */
  predicate AllLeft(before: seq<Ticket>, now: seq<Ticket>) {
    |now| == |before| && forall i :: 0 <= i < |now| ==> now[i].stream == before[i].stream && now[i].phase.Left?
  }

  /** No deadlock: from every reachable state there is a schedule in which every caller leaves and the map is empty. */
  lemma {:induction false} EveryCallerCanFinish(actions: seq<LockAction>) returns (more: seq<LockAction>)
    ensures AllLeft(Run(actions).tickets, Run(actions + more).tickets) && Run(actions + more).tails == map[]
    decreases Unfinished(Run(actions).tickets)
  {
    var tickets := Run(actions).tickets;
    var t := Oldest(tickets);
    hide Run, Unfinished, AllLeft;
    if t == |tickets| {
      more := [];
      assert actions + more == actions;
      MapIsEmpty(actions);
    } else {
      var first := OldestFinishes(actions, t);
      OneMoreLeft(tickets, t, tickets[t].(phase := Left));
      var rest := EveryCallerCanFinish(actions + first);
      more := first + rest;
      assert actions + more == (actions + first) + rest;
      LeftThrough(tickets, t, Run(actions + more).tickets);
    }
  }

  lemma {:induction false} MapIsEmpty(actions: seq<LockAction>)
    requires forall i :: 0 <= i < |Run(actions).tickets| ==> Run(actions).tickets[i].phase.Left?
    ensures Run(actions).tails == map[] && AllLeft(Run(actions).tickets, Run(actions).tickets)
  {
    RunIsChained(actions);
    hide Run, PriorIs;
    var l := Run(actions);
    assert forall s :: s !in l.tails;
  }

  lemma LeftThrough(before: seq<Ticket>, t: nat, now: seq<Ticket>)
    requires t < |before| && AllLeft(before[t := before[t].(phase := Left)], now)
    ensures AllLeft(before, now)
  {
    var mid := before[t := before[t].(phase := Left)];
    assert forall i :: 0 <= i < |before| ==> mid[i].stream == before[i].stream;
  }

  /** The manager itself: `tails` is its map, and `tickets` are the calls in flight. */
  class StreamLockManager {
    var tails: map<StreamId, nat>
    var tickets: seq<Ticket>

    function State(): Locks
      reads this
    {
      Locks(tails, tickets)
    }

    constructor ()
      ensures State() == IDLE
    {
      tails, tickets := map[], [];
    }

    method ArriveAt(s: StreamId) returns (ticket: nat)
      modifies this
      ensures ticket == |old(tickets)| && State() == Enter(old(State()), s)
    {
      var prior := if s in tails then Some(tails[s]) else None;
      ticket := |tickets|;
      tickets := tickets + [Ticket(s, prior, Waiting)];
      tails := tails[s := ticket];
    }

    method StartSection(ticket: nat) returns (started: bool)
      modifies this
      ensures started == CanStart(old(State()), ticket) && State() == Begin(old(State()), ticket)
    {
      started := CanStart(State(), ticket);
      if started {
        tickets := tickets[ticket := tickets[ticket].(phase := Running)];
      }
    }

    method LeaveSection(ticket: nat)
      requires ticket < |tickets| && tickets[ticket].phase.Running?
      modifies this
      ensures State() == Finish(old(State()), ticket)
    {
      var s := tickets[ticket].stream;
      tickets := tickets[ticket := tickets[ticket].(phase := Left)];
      if s in tails && tails[s] == ticket {
        tails := tails - {s};
      }
    }
  }
}
