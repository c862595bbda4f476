/**
 * The part of `decide` and `withSession` before the append: the loop that folds the stream, and the session
 * that collects events until its closure ends. `AppendProtocol` takes what they compute as one step.
 */
module Sessions {
  import opened EventTables
  import opened AppendProtocol

  /** The fold is the last state of the run that starts at the initial state and applies the rows from first to last. */
  lemma {:induction false} FoldIsTheRun(reducer: Reducer, rows: seq<Row>, states: seq<State>)
    requires |states| == |rows| + 1 && states[0] == reducer.initial
    requires forall i :: 0 <= i < |rows| ==> states[i + 1] == reducer.apply(states[i], rows[i])
    ensures Fold(reducer, rows) == states[|rows|]
  {
    if rows != [] {
      var n := |rows| - 1;
      FoldIsTheRun(reducer, rows[..n], states[..n + 1]);
    }
  }

  /** The fold of the stream rows and the tail version. */
  method FoldStream(reducer: Reducer, rows: seq<Row>) returns (state: State, tailVersion: nat)
    ensures state == Fold(reducer, rows) && tailVersion == TailVersion(rows)
  {
    state := reducer.initial;
    for i := 0 to |rows|
      invariant state == Fold(reducer, rows[..i])
    {
      assert rows[..i + 1][..i] == rows[..i];
      state := reducer.apply(state, rows[i]);
    }
    assert rows[..|rows|] == rows;
    tailVersion := if |rows| == 0 then 0 else rows[|rows| - 1].sequence;
  }

  class Session {
    const version: nat
    var pending: seq<EventInput>
    var closed: bool

    constructor (tailVersion: nat)
      ensures version == tailVersion && pending == [] && !closed
    {
      version, pending, closed := tailVersion, [], false;
    }

    /** Queues an event. A closed session refuses it, and keeps what it holds. */
    method Append(event: EventInput) returns (ok: bool)
      modifies this`pending
      ensures ok <==> !closed
      ensures pending == if ok then old(pending) + [event] else old(pending)
    {
      if closed { return false; }
      pending := pending + [event];
      return true;
    }

    method Close()
      modifies this`closed
      ensures closed
    {
      closed := true;
    }
  }

  /** One run of a session closure: it queues some events and then resolves or throws. */
  datatype Script = Script(events: seq<EventInput>, throws: bool)

  /**
   * Runs a session closure and lets captured references append after it ends. The result holds what was queued before the
   * end, in order, and a closure that throws produces nothing. `taken` tells which late appends went in: none, after a
   * closure that resolved and after one that threw.
   */
  method RunSession(reducer: Reducer, rows: seq<Row>, closure: (State, nat) -> Script, late: seq<EventInput>)
    returns (produced: Produced, taken: seq<bool>)
    ensures |taken| == |late| && forall i :: 0 <= i < |late| ==> !taken[i]
    ensures var script := closure(Fold(reducer, rows), TailVersion(rows));
            produced == if script.throws then Threw else Produced(script.events)
  {
    var state, tailVersion := FoldStream(reducer, rows);
    var session := new Session(tailVersion);
    var script := closure(state, tailVersion);
    for i := 0 to |script.events|
      invariant session.pending == script.events[..i] && !session.closed
    {
      var _ := session.Append(script.events[i]);
    }
    assert script.events[..|script.events|] == script.events;
    session.Close();
    taken := [];
    for i := 0 to |late|
      invariant session.closed && session.pending == script.events
      invariant |taken| == i && forall k :: 0 <= k < i ==> !taken[k]
    {
      var ok := session.Append(late[i]);
      taken := taken + [ok];
    }
    produced := if script.throws then Threw else Produced(session.pending);
  }
}
