/**
 * The inspect-follow stream: one subscriber that turns delivered events, clock ticks and stops into frames.
 * The stop stands for an abort of the signal and for a dispose, which share one `end` path.
 */
module FollowStream {
  import opened Wrappers

  datatype Input = Deliver(sequence: int) | Tick(time: int) | Stop(reason: string)

  datatype Frame = EventFrame(sequence: int) | Heartbeat(time: int) | EndFrame(reason: string)

  datatype State = State(lastEmitted: int, ended: bool, activity: bool, heartbeats: bool)

  /** The cursor starts at the given sequence, or at zero. */
  function Start(from: Option<int>, clock: bool): State {
    State(from.GetOr(0), false, false, clock)
  }

  function Next(s: State, input: Input): State {
    if s.ended then s
    else
      match input
      case Deliver(q) => if q <= s.lastEmitted then s else s.(lastEmitted := q, activity := true)
      case Tick(_) => if s.heartbeats then s.(activity := false) else s
      case Stop(_) => s.(ended := true, heartbeats := false)
  }

  function Emits(s: State, input: Input): Option<Frame> {
    if s.ended then None
    else
      match input
      case Deliver(q) => if q <= s.lastEmitted then None else Some(EventFrame(q))
      case Tick(t) => if s.heartbeats && !s.activity then Some(Heartbeat(t)) else None
      case Stop(r) => Some(EndFrame(r))
  }

  class InspectFollow {
    var lastEmitted: int
    var ended: bool
    var activitySinceTick: bool
    var heartbeats: bool
    /** The frames that the sink took, in order. */
    var frames: seq<Frame>

    constructor (from: Option<int>, clock: bool)
      ensures Now() == Start(from, clock) && frames == []
    {
      lastEmitted := from.GetOr(0);
      ended, activitySinceTick, heartbeats := false, false, clock;
      frames := [];
    }

    function Now(): State
      reads this
    {
      State(lastEmitted, ended, activitySinceTick, heartbeats)
    }

    method OnEvent(sequence: int)
      modifies this
      ensures Now() == Next(old(Now()), Deliver(sequence))
      ensures frames == old(frames) + Taken(Emits(old(Now()), Deliver(sequence)))
    {
      if ended { return; }
      if sequence <= lastEmitted { return; }
      lastEmitted := sequence;
      activitySinceTick := true;
      frames := frames + [EventFrame(sequence)];
    }

    method OnTick(time: int)
      modifies this
      ensures Now() == Next(old(Now()), Tick(time))
      ensures frames == old(frames) + Taken(Emits(old(Now()), Tick(time)))
    {
      if !heartbeats { return; }
      if ended { return; }
      if activitySinceTick {
        activitySinceTick := false;
        return;
      }
      frames := frames + [Heartbeat(time)];
    }

    method End(reason: string)
      modifies this
      ensures Now() == Next(old(Now()), Stop(reason))
      ensures frames == old(frames) + Taken(Emits(old(Now()), Stop(reason)))
    {
      if ended { return; }
      ended := true;
      heartbeats := false;
      frames := frames + [EndFrame(reason)];
    }
  }

  function Taken(frame: Option<Frame>): seq<Frame> {
    if frame.Some? then [frame.value] else []
  }

  // ----- whole runs

  function After(start: State, inputs: seq<Input>): State {
    if inputs == [] then start else Next(After(start, inputs[..|inputs| - 1]), inputs[|inputs| - 1])
  }

  /** The frame of one input of a run. */
  function FrameAt(start: State, inputs: seq<Input>, i: nat): Option<Frame>
    requires i < |inputs|
  {
    Emits(After(start, inputs[..i]), inputs[i])
  }

  function Frames(start: State, inputs: seq<Input>): seq<Frame> {
    if inputs == [] then []
    else
      var n := |inputs| - 1;
      Frames(start, inputs[..n]) + Taken(Emits(After(start, inputs[..n]), inputs[n]))
  }

  /** Drives a stream with a list of inputs. */
  method RunInspectFollow(from: Option<int>, clock: bool, inputs: seq<Input>) returns (frames: seq<Frame>)
    ensures frames == Frames(Start(from, clock), inputs) == AllCalled(from, clock, inputs, |inputs|)
  {
    var stream := new InspectFollow(from, clock);
    for i := 0 to |inputs|
      invariant stream.Now() == After(Start(from, clock), inputs[..i])
      invariant stream.frames == Frames(Start(from, clock), inputs[..i])
    {
      assert inputs[..i + 1][..i] == inputs[..i];
      match inputs[i] {
        case Deliver(q) => stream.OnEvent(q);
        case Tick(t) => stream.OnTick(t);
        case Stop(r) => stream.End(r);
      }
    }
    assert inputs[..|inputs|] == inputs;
    SinkIsCalled(from, clock, inputs, |inputs|);
    frames := stream.frames;
  }

  /** An end came among the first inputs. */
  predicate Stopped(inputs: seq<Input>, n: nat)
    requires n <= |inputs|
  {
    exists j :: 0 <= j < n && inputs[j].Stop?
  }

  /** A delivery above the cursor and above every delivery before it. */
  predicate RunningMaximum(from: Option<int>, inputs: seq<Input>, i: nat)
    requires i < |inputs|
  {
    && inputs[i].Deliver? && inputs[i].sequence > from.GetOr(0)
    && forall j :: 0 <= j < i && inputs[j].Deliver? ==> inputs[j].sequence < inputs[i].sequence
  }

  /** An event frame came after the last tick before an input. */
  predicate ActiveBefore(from: Option<int>, inputs: seq<Input>, i: nat)
    requires i <= |inputs|
  {
    exists j :: 0 <= j < i && RunningMaximum(from, inputs, j) && NoTick(inputs, j, i)
  }

  predicate NoTick(inputs: seq<Input>, lo: nat, hi: nat)
    requires lo <= hi <= |inputs|
  {
    forall k :: lo < k < hi ==> !inputs[k].Tick?
  }

  /** What a state says about the inputs before it. */
  lemma {:induction false} StateMeans(from: Option<int>, clock: bool, inputs: seq<Input>)
    ensures var s := After(Start(from, clock), inputs);
            && (s.ended <==> Stopped(inputs, |inputs|))
            && (!s.ended ==> s.heartbeats == clock && s.lastEmitted >= from.GetOr(0))
            && (!s.ended ==> forall j :: 0 <= j < |inputs| && inputs[j].Deliver? ==> inputs[j].sequence <= s.lastEmitted)
            && (!s.ended && s.lastEmitted != from.GetOr(0) ==>
                  exists j :: 0 <= j < |inputs| && inputs[j] == Deliver(s.lastEmitted))
            && (!s.ended && clock ==> (s.activity <==> ActiveBefore(from, inputs, |inputs|)))
  {
    if inputs != [] {
      var n := |inputs| - 1;
      var before, last := inputs[..n], inputs[n];
      StateMeans(from, clock, before);
      var s, t := After(Start(from, clock), before), After(Start(from, clock), inputs);
      assert forall j :: 0 <= j < n ==> before[j] == inputs[j];
      if !t.ended {
        MaximumIsNew(from, inputs, s.lastEmitted);
        if clock { ActivityStep(from, inputs); }
      }
    }
  }

  /** The last delivery is a running maximum exactly when it is above the last one emitted. */
  lemma MaximumIsNew(from: Option<int>, inputs: seq<Input>, last: int)
    requires inputs != [] && last >= from.GetOr(0)
    requires var n := |inputs| - 1; forall j :: 0 <= j < n && inputs[j].Deliver? ==> inputs[j].sequence <= last
    requires last != from.GetOr(0) ==> exists j :: 0 <= j < |inputs| - 1 && inputs[j] == Deliver(last)
    ensures RunningMaximum(from, inputs, |inputs| - 1) <==> inputs[|inputs| - 1].Deliver? && inputs[|inputs| - 1].sequence > last
  {
  }

  /** One more input: a tick clears the activity, a running maximum sets it, and any other input keeps it. */
  lemma {:induction false} ActivityStep(from: Option<int>, inputs: seq<Input>)
    requires inputs != []
    ensures var n := |inputs| - 1;
            ActiveBefore(from, inputs, n + 1) <==>
              RunningMaximum(from, inputs, n) || (ActiveBefore(from, inputs[..n], n) && !inputs[n].Tick?)
  {
    var n := |inputs| - 1;
    var before := inputs[..n];
    forall j | 0 <= j < n ensures RunningMaximum(from, before, j) <==> RunningMaximum(from, inputs, j) {
      assert forall k :: 0 <= k <= j ==> before[k] == inputs[k];
    }
    forall j | 0 <= j < n ensures NoTick(inputs, j, n + 1) <==> NoTick(before, j, n) && !inputs[n].Tick? {
      assert forall k :: 0 <= k < n ==> before[k] == inputs[k];
    }
    if RunningMaximum(from, inputs, n) { assert NoTick(inputs, n, n + 1); }
    if ActiveBefore(from, before, n) && !inputs[n].Tick? {
      var j :| 0 <= j < n && RunningMaximum(from, before, j) && NoTick(before, j, n);
      assert RunningMaximum(from, inputs, j) && NoTick(inputs, j, n + 1);
    }
    if ActiveBefore(from, inputs, n + 1) && !RunningMaximum(from, inputs, n) {
      var j :| 0 <= j < n + 1 && RunningMaximum(from, inputs, j) && NoTick(inputs, j, n + 1);
      assert j < n && RunningMaximum(from, before, j) && NoTick(before, j, n);
    }
  }

  /**
   * The frame that the inputs so far call for: an event frame for a running maximum above the cursor, an end frame for the
   * first stop, a heartbeat for a tick with no event frame since the tick before it, and nothing after a stop.
   */
  ghost function Called(from: Option<int>, clock: bool, inputs: seq<Input>, i: nat): Option<Frame>
    requires i < |inputs|
  {
    if Stopped(inputs, i) then None
    else match inputs[i]
         case Deliver(q) => if RunningMaximum(from, inputs, i) then Some(EventFrame(q)) else None
         case Tick(t) => if clock && !ActiveBefore(from, inputs, i) then Some(Heartbeat(t)) else None
         case Stop(r) => Some(EndFrame(r))
  }

  /** The frames that the first inputs call for, in order. */
  ghost function AllCalled(from: Option<int>, clock: bool, inputs: seq<Input>, n: nat): seq<Frame>
    requires n <= |inputs|
  {
    if n == 0 then [] else AllCalled(from, clock, inputs, n - 1) + Taken(Called(from, clock, inputs, n - 1))
  }

  /** Each input has the frame that it calls for. */
  lemma {:induction false} FrameMeans(from: Option<int>, clock: bool, inputs: seq<Input>, i: nat)
    requires i < |inputs|
    ensures FrameAt(Start(from, clock), inputs, i) == Called(from, clock, inputs, i)
  {
    var before, here := inputs[..i], inputs[..i + 1];
    var s := After(Start(from, clock), before);
    StateMeans(from, clock, before);
    assert here[..i] == before;
    forall j | 0 <= j < i ensures RunningMaximum(from, before, j) <==> RunningMaximum(from, inputs, j) {
      assert forall k :: 0 <= k <= j ==> before[k] == inputs[k];
    }
    forall j | 0 <= j < i ensures NoTick(before, j, i) <==> NoTick(inputs, j, i) {
      assert forall k :: 0 <= k < i ==> before[k] == inputs[k];
    }
    assert ActiveBefore(from, before, i) <==> ActiveBefore(from, inputs, i);
    assert Stopped(before, i) <==> Stopped(inputs, i);
    if !s.ended {
      MaximumIsNew(from, here, s.lastEmitted);
      assert RunningMaximum(from, here, i) <==> RunningMaximum(from, inputs, i);
    }
  }

  /** Each frame of the sink is the frame of one input, in the order of the inputs. */
  lemma {:induction false} FrameHasItsInput(start: State, inputs: seq<Input>, k: nat) returns (i: nat)
    requires k < |Frames(start, inputs)|
    ensures i < |inputs| && FrameAt(start, inputs, i) == Some(Frames(start, inputs)[k])
    ensures Frames(start, inputs[..i]) == Frames(start, inputs)[..k]
  {
    var n := |inputs| - 1;
    var before := Frames(start, inputs[..n]);
    if k < |before| {
      i := FrameHasItsInput(start, inputs[..n], k);
      assert inputs[..n][..i] == inputs[..i];
    } else {
      i := n;
    }
  }

  /** The sink holds exactly the frames that the inputs call for, in order. */
  lemma {:induction false} SinkIsCalled(from: Option<int>, clock: bool, inputs: seq<Input>, n: nat)
    requires n <= |inputs|
    ensures Frames(Start(from, clock), inputs[..n]) == AllCalled(from, clock, inputs, n)
  {
    if n > 0 {
      SinkIsCalled(from, clock, inputs, n - 1);
      FrameMeans(from, clock, inputs, n - 1);
      assert inputs[..n][..n - 1] == inputs[..n - 1];
    }
  }

  lemma {:induction false} InputsInOrder(start: State, inputs: seq<Input>, i: nat, j: nat)
    requires i <= j <= |inputs|
    ensures Frames(start, inputs[..i]) <= Frames(start, inputs[..j])
    decreases j
  {
    if i < j {
      assert inputs[..j][..j - 1] == inputs[..j - 1];
      InputsInOrder(start, inputs, i, j - 1);
    }
  }

  /** The frames of a run: event frames rise above the cursor, and nothing follows an end frame. */
  lemma {:induction false} FramesRiseAndEnd(from: Option<int>, clock: bool, inputs: seq<Input>, a: nat, b: nat)
    requires a < b < |Frames(Start(from, clock), inputs)|
    ensures var frames := Frames(Start(from, clock), inputs);
            && !frames[a].EndFrame?
            && (frames[a].EventFrame? ==> frames[a].sequence > from.GetOr(0))
            && (frames[a].EventFrame? && frames[b].EventFrame? ==> frames[a].sequence < frames[b].sequence)
  {
    var start := Start(from, clock);
    var i := FrameHasItsInput(start, inputs, a);
    var j := FrameHasItsInput(start, inputs, b);
    if j <= i { InputsInOrder(start, inputs, j, i); }
    FrameMeans(from, clock, inputs, i);
    FrameMeans(from, clock, inputs, j);
  }
}
