/** One server session: the state its lock guards, and the events it hands to the dispatcher. */
module Sessions {
  import opened Bytes
  import opened Options
  import opened Messages

  datatype State = Idle | Streaming | Terminated

  /** What the dispatcher is told. A frame notes the round it was dispatched in and its place among the messages the
      client sent; a torn one has no such place: it is what a read returned that was cut short by the closing of the
      socket. Likewise for a name. */
  datatype Event =
    | SessionStarted
    | ClientRegistered(name: seq<byte>, torn: bool)
    | FrameReceived(frame: Message, round: nat, place: Option<nat>)
    | SessionEnded

  /** `ending` counts the calls of Terminate that have released the lock but not yet dispatched SessionEnded. */
  datatype Core = Core(state: State, open: bool, ending: nat, log: seq<Event>)

  const NEW := Core(Idle, true, 0, [SessionStarted])

  /** The locked sections of the operations, with what they return. */
  function Start(c: Core): (Core, bool) {
    if c.state == Terminated then (c, false)
    else if c.state == Streaming then (c, true)
    else (c.(state := Streaming), true)
  }

  function Stop(c: Core): (Core, bool) {
    if c.state == Terminated then (c, false)
    else if c.state != Streaming then (c, false)
    else (c.(state := Idle), true)
  }

  function Toggle(c: Core): (Core, bool) {
    if c.state == Terminated then (c, false)
    else if c.state == Idle then (c.(state := Streaming), true)
    else (c.(state := Idle), false)
  }

  function TerminateLocked(c: Core): Core {
    if c.state == Terminated then c
    else c.(state := Terminated, open := false, ending := c.ending + 1)
  }

  function DispatchEnded(c: Core): Core
    requires c.ending > 0
  {
    c.(ending := c.ending - 1, log := c.log + [SessionEnded])
  }

  function EndSession(c: Core): Core {
    if c.state == Terminated then c else DispatchEnded(TerminateLocked(c))
  }

  function Ends(log: seq<Event>): nat {
    if log == [] then 0 else Ends(log[..|log| - 1]) + (if log[|log| - 1] == SessionEnded then 1 else 0)
  }

  lemma EndsAppend(log: seq<Event>, e: Event)
    ensures Ends(log + [e]) == Ends(log) + (if e == SessionEnded then 1 else 0)
  {
    assert (log + [e])[..|log|] == log;
  }

  ghost predicate CoreInv(c: Core) {
    && c.ending + Ends(c.log) == (if c.state == Terminated then 1 else 0)
    && (c.state == Terminated ==> !c.open)
    && c.log != [] && c.log[0] == SessionStarted
  }

  /** One step of any thread on the session. */
  datatype Op =
    | DoStart | DoStop | DoToggle | DoTerminate | DoDispatchEnded
    | DoReport(event: Event)  // the worker reports a registration or a frame
    | DoLoseSocket            // a failed read or write of the worker closes the socket

  /** The steps that a session's worker takes by itself. */
  predicate IsWorkers(op: Op) {
    op.DoTerminate? || op.DoDispatchEnded? || op.DoReport? || op.DoLoseSocket?
  }

  predicate Possible(c: Core, op: Op) {
    match op
    case DoDispatchEnded => c.ending > 0
    case DoReport(e) => e.ClientRegistered? || e.FrameReceived?
    case _ => true
  }

  function Do(c: Core, op: Op): Core
    requires Possible(c, op)
  {
    match op
    case DoStart => Start(c).0
    case DoStop => Stop(c).0
    case DoToggle => Toggle(c).0
    case DoTerminate => TerminateLocked(c)
    case DoDispatchEnded => DispatchEnded(c)
    case DoReport(e) => c.(log := c.log + [e])
    case DoLoseSocket => c.(open := false)
  }

  predicate ValidOps(c: Core, ops: seq<Op>)
    decreases |ops|
  {
    ops == [] || (Possible(c, ops[0]) && ValidOps(Do(c, ops[0]), ops[1..]))
  }

  function DoAll(c: Core, ops: seq<Op>): Core
    requires ValidOps(c, ops)
    decreases |ops|
  {
    if ops == [] then c else DoAll(Do(c, ops[0]), ops[1..])
  }

  lemma DoKeepsInv(c: Core, op: Op)
    requires CoreInv(c) && Possible(c, op)
    ensures CoreInv(Do(c, op))
    ensures c.state == Terminated ==> Do(c, op).state == Terminated
    ensures Do(c, op).open ==> c.open
  {
    match op
    case DoDispatchEnded => EndsAppend(c.log, SessionEnded);
    case DoReport(e) => EndsAppend(c.log, e);
    case _ =>
  }

  lemma {:induction false} InterleavingsKeepInv(c: Core, ops: seq<Op>)
    requires CoreInv(c) && ValidOps(c, ops)
    ensures CoreInv(DoAll(c, ops))
    ensures c.state == Terminated ==> DoAll(c, ops).state == Terminated
    ensures DoAll(c, ops).open ==> c.open
    decreases |ops|
  {
    if ops != [] {
      DoKeepsInv(c, ops[0]);
      InterleavingsKeepInv(Do(c, ops[0]), ops[1..]);
    }
  }

  /** Under every interleaving of the operations and the worker: SessionEnded is dispatched at most once, and has been
      exactly when the session is terminated and no call of Terminate is still on its way to dispatch it. */
  lemma EndedAtMostOnce(ops: seq<Op>)
    requires ValidOps(NEW, ops)
    ensures var c := DoAll(NEW, ops);
            Ends(c.log) <= 1 && (Ends(c.log) == 1 <==> c.state == Terminated && c.ending == 0)
  {
    assert Ends(NEW.log) == 0;
    InterleavingsKeepInv(NEW, ops);
  }

  /** Whenever SessionEnded is about to be dispatched, and ever after, the state is Terminated and the socket closed. */
  lemma EndedMeansClosed(ops: seq<Op>, more: seq<Op>)
    requires ValidOps(NEW, ops) && ValidOps(DoAll(NEW, ops), more)
    requires DoAll(NEW, ops).ending > 0 || SessionEnded in DoAll(NEW, ops).log
    ensures var c := DoAll(DoAll(NEW, ops), more); c.state == Terminated && !c.open
  {
    assert Ends(NEW.log) == 0;
    InterleavingsKeepInv(NEW, ops);
    var c := DoAll(NEW, ops);
    if c.ending == 0 {
      EndsCounts(c.log);
    }
    InterleavingsKeepInv(c, more);
  }

  lemma {:induction false} EndsCounts(log: seq<Event>)
    ensures SessionEnded in log <==> Ends(log) > 0
  {
    if log != [] {
      EndsCounts(log[..|log| - 1]);
      assert log == log[..|log| - 1] + [log[|log| - 1]];
    }
  }

  datatype JoinResult = Joined | Thrown

  class Session {
    const identifier: uint32
    var state: State
    var open: bool
    var ending: nat
    var log: seq<Event>

    function Now(): Core
      reads this
    {
      Core(state, open, ending, log)
    }

    ghost predicate Valid()
      reads this
    {
      CoreInv(Now())
    }

    constructor (identifier: uint32)
      ensures this.identifier == identifier && Now() == NEW && Valid()
    {
      this.identifier := identifier;
      state, open, ending, log := Idle, true, 0, [SessionStarted];
      new;
      assert Ends(log) == 0;
    }

    method StartStreaming() returns (r: bool)
      requires Valid()
      modifies this
      ensures Valid() && (Now(), r) == Start(old(Now()))
      ensures r <==> state == Streaming
      ensures r <==> old(state) != Terminated
      ensures old(state) != Idle ==> Now() == old(Now())
      ensures Now() == old(Now()).(state := state)
    {
      if state == Terminated {
        return false;
      }
      if state == Streaming {
        return true;
      }
      state := Streaming;
      return true;
    }

    method StopStreaming() returns (r: bool)
      requires Valid()
      modifies this
      ensures Valid() && (Now(), r) == Stop(old(Now()))
      ensures state != Streaming && (r <==> old(state) == Streaming)
      ensures if old(state) == Streaming then Now() == old(Now()).(state := Idle) else Now() == old(Now())
    {
      if state == Terminated {
        return false;
      }
      if state != Streaming {
        return false;
      }
      state := Idle;
      return true;
    }

    method ToggleStreaming() returns (r: bool)
      requires Valid()
      modifies this
      ensures Valid() && (Now(), r) == Toggle(old(Now()))
      ensures r <==> state == Streaming
      ensures if old(state) == Terminated then state == Terminated else state != Terminated && state != old(state)
      ensures Now() == old(Now()).(state := state)
    {
      if state == Terminated {
        return false;
      }
      var wasIdle := state == Idle;
      if wasIdle {
        state := Streaming;
      } else {
        state := Idle;
      }
      return wasIdle;
    }

    /** Without interference between its locked section and the dispatch; Op has the two as separate steps. */
    method Terminate()
      requires Valid()
      modifies this
      ensures Valid() && Now() == EndSession(old(Now()))
      ensures state == Terminated && !open
      ensures if old(state) == Terminated then Now() == old(Now())
              else log == old(log) + [SessionEnded] && ending == old(ending)
    {
      if state == Terminated {
        return;
      }
      state := Terminated;
      open := false;
      ending := ending + 1;

      EndsAppend(log, SessionEnded);
      ending := ending - 1;
      log := log + [SessionEnded];
    }

    /** Only the guard: what Join then waits for is the worker. */
    method Join() returns (r: JoinResult)
      ensures r == Joined <==> state == Terminated
    {
      if state != Terminated {
        return Thrown;
      }
      return Joined;
    }

    method Destroy()
      requires Valid()
      modifies this
      ensures Valid() && state == Terminated && !open && Now() == EndSession(old(Now()))
    {
      if state != Terminated {
        Terminate();
      }
    }

    /** What the worker can do to the session by itself: never start it, never stop it short of terminating it. */
    twostate predicate Evolved()
      reads this
    {
      && (state == old(state) || state == Terminated)
      && (open ==> old(open))
      && old(log) <= log
    }

    method WorkerStep(op: Op)
      requires Valid() && IsWorkers(op) && Possible(Now(), op)
      modifies this
      ensures Valid() && Evolved() && Now() == Do(old(Now()), op)
    {
      DoKeepsInv(Now(), op);
      var next := Do(Now(), op);
      state, open, ending, log := next.state, next.open, next.ending, next.log;
    }
  }

  /** Any number of steps of the workers of the sessions in a list. */
  method WorkersRun(sessions: seq<Session>)
    requires forall s <- sessions :: s.Valid()
    modifies set s | s in sessions
    ensures forall s <- sessions :: s.Valid() && s.Evolved()
  {
    var steps: int := *;
    for i := 0 to if steps > 0 then steps else 0
      invariant forall s <- sessions :: s.Valid() && s.Evolved()
    {
      var k: int := *;
      var op: Op := *;
      if 0 <= k < |sessions| && IsWorkers(op) && Possible(sessions[k].Now(), op) {
        sessions[k].WorkerStep(op);
      }
    }
  }
}
