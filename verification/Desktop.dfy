/** The server's window above all its sessions: the accept thread, the workers and any thread that terminates a session
    put events into one FIFO queue; the window's one thread takes them out and reacts to clicks, in steps between which
    the others run on. Session number n has identifier n, as there are fewer than 2^32 of them. */
module Desktop {
  import opened Bytes
  import opened Options
  import opened Sessions
  import opened ProtocolInvariant
  import opened ClientList

  datatype GuiEvent =
    | Connected(id: uint32)
    | RegisteredAs(id: uint32, name: seq<byte>)
    | Disconnected(id: uint32)

  /** Where the handler of a click on a client is. */
  datatype GuiPc = Ready | Stopping(id: uint32) | Starting(id: uint32) | Recording(id: uint32)

  datatype Window = Window(
    clients: map<uint32, ClientInfo>,
    shown: set<uint32>,       // the identifiers that there are buttons for
    current: Option<uint32>,
    pc: GuiPc,
    missing: bool)            // a lookup in `clients` has failed

  datatype Desk = Desk(
    sessions: seq<Core>,
    listed: nat,              // how many of them the accept thread has put on the server's list
    cleared: bool,            // the list has been cleared by Stop
    events: seq<GuiEvent>,    // all events ever queued...
    done: nat,                // ... and how many of them have been handled
    window: Window,
    peers: seq<seq<byte>>)    // the address of the peer as found when each of them was handled

  const START := Desk([], 0, false, [], 0, Window(map[], {}, None, Ready, false), [])

  predicate Listed(d: Desk, id: uint32) {
    1 <= id <= d.listed && !d.cleared
  }

  predicate Known(d: Desk, id: uint32) {
    1 <= id <= |d.sessions|
  }

  function CoreOf(d: Desk, id: uint32): Core
    requires Known(d, id)
  {
    d.sessions[id - 1]
  }

  // ---- the window's handlers, on its own thread ----

  function Refreshed(w: Window): Window {
    w.(shown := w.clients.Keys)
  }

  function Handled(w: Window, e: GuiEvent, peer: seq<byte>): Window {
    match e
    case Connected(id) => Refreshed(w.(clients := w.clients[id := ClientInfo(id, peer)]))
    case RegisteredAs(id, name) => Refreshed(w.(clients := w.clients[id := ClientInfo(id, name)]))
    case Disconnected(id) =>
      if id !in w.clients then w.(missing := true) else Refreshed(w.(clients := w.clients - {id}))
  }

  /** The current stream's session has been told to stop, if there is one; `stopped` is what it answered. */
  function AfterStop(w: Window, id: uint32, stopped: bool): Window {
    if stopped && w.current.Some? && w.current.value !in w.clients then w.(missing := true, pc := Ready)
    else if w.current == Some(id) then w.(current := None, pc := Ready)
    else w.(pc := Starting(id))
  }

  // ---- steps ----

  datatype Move =
    | Accept                                  // a session is constructed
    | PutOnList                               // and then put on the list
    | Registers(id: uint32, name: seq<byte>, torn: bool)  // its worker reports the client's name
    | Shows(id: uint32, frame: Event)         // or a frame; what the window does with that is left out
    | Loses(id: uint32)                       // a failed read or write of the worker closes the socket
    | Ends(id: uint32)                        // the locked section of Terminate, by any thread
    | Dispatches(id: uint32)                  // SessionEnded is dispatched
    | Handles(peer: seq<byte>)                // the window handles the next event
    | Click(id: uint32)
    | GoOn                                    // the click's handler takes its next step
    | Clear                                   // Stop has joined every session and clears the list

  predicate Can(d: Desk, m: Move) {
    match m
    case Accept => d.listed == |d.sessions| && !d.cleared && |d.sessions| + 1 < U32
    case PutOnList => d.listed < |d.sessions| && !d.cleared
    case Registers(id, _, _) => Known(d, id) && Silent(CoreOf(d, id).log)
    case Shows(id, e) => Known(d, id) && e.FrameReceived?
    case Loses(id) => Known(d, id)
    case Ends(id) => Known(d, id)
    case Dispatches(id) => Known(d, id) && CoreOf(d, id).ending > 0
    case Handles(_) => d.window.pc.Ready? && d.done < |d.events|
    case Click(id) => d.window.pc.Ready? && id in d.window.shown
    case GoOn => !d.window.pc.Ready?
    case Clear =>
      && d.window.pc.Ready? && d.listed == |d.sessions|
      && forall i :: 0 <= i < d.listed ==> d.sessions[i].state == Terminated
  }

  function Update(d: Desk, id: uint32, c: Core): Desk
    requires Known(d, id)
  {
    d.(sessions := d.sessions[id - 1 := c])
  }

  function Queue(d: Desk, e: GuiEvent): Desk {
    d.(events := d.events + [e])
  }

  function Clicked(d: Desk, id: uint32): Desk {
    d.(window := d.window.(pc := Stopping(id)))
  }

  function Does(d: Desk, m: Move): Desk
    requires Can(d, m)
  {
    match m
    case Accept => Queue(d.(sessions := d.sessions + [NEW]), Connected(|d.sessions| + 1))
    case PutOnList => d.(listed := d.listed + 1)
    case Registers(id, name, torn) =>
      Queue(Update(d, id, Do(CoreOf(d, id), DoReport(ClientRegistered(name, torn)))), RegisteredAs(id, name))
    case Shows(id, e) => Update(d, id, Do(CoreOf(d, id), DoReport(e)))
    case Loses(id) => Update(d, id, Do(CoreOf(d, id), DoLoseSocket))
    case Ends(id) => Update(d, id, TerminateLocked(CoreOf(d, id)))
    case Dispatches(id) => Queue(Update(d, id, DispatchEnded(CoreOf(d, id))), Disconnected(id))
    case Handles(peer) =>
      d.(done := d.done + 1, window := Handled(d.window, d.events[d.done], peer), peers := d.peers + [peer])
    case Click(id) => Clicked(d, id)
    case GoOn => ClickGoesOn(d)
    case Clear => d.(cleared := true)
  }

  function ClickGoesOn(d: Desk): Desk
    requires !d.window.pc.Ready?
  {
    var w := d.window;
    match w.pc
    case Stopping(id) =>
      if w.current.Some? && Listed(d, w.current.value) && Known(d, w.current.value) then
        var (c, stopped) := Stop(CoreOf(d, w.current.value));
        Update(d, w.current.value, c).(window := AfterStop(w, id, stopped))
      else d.(window := AfterStop(w, id, false))
    case Starting(id) =>
      if id !in w.clients then d.(window := w.(missing := true, pc := Ready))
      else if !Listed(d, id) || !Known(d, id) then d.(window := w.(pc := Ready))
      else
        var (c, started) := Start(CoreOf(d, id));
        Update(d, id, c).(window := w.(pc := if started then Recording(id) else Ready))
    case Recording(id) => d.(window := w.(current := Some(id), pc := Ready))
  }

  predicate IsRun(d: Desk, moves: seq<Move>)
    decreases |moves|
  {
    moves == [] || (Can(d, moves[0]) && IsRun(Does(d, moves[0]), moves[1..]))
  }

  function After(d: Desk, moves: seq<Move>): Desk
    requires IsRun(d, moves)
    decreases |moves|
  {
    if moves == [] then d else After(Does(d, moves[0]), moves[1..])
  }

  // ---- the moves of one click ----

  /** What a session's worker does, as a move. */
  predicate OfWorker(m: Move) {
    m.Registers? || m.Shows? || m.Loses? || m.Ends? || m.Dispatches?
  }

  function MoveFor(op: Op, id: uint32): Move
    requires IsWorkers(op) && (op.DoReport? ==> op.event.ClientRegistered? || op.event.FrameReceived?)
  {
    match op
    case DoTerminate => Ends(id)
    case DoDispatchEnded => Dispatches(id)
    case DoLoseSocket => Loses(id)
    case DoReport(e) => if e.ClientRegistered? then Registers(id, e.name, e.torn) else Shows(id, e)
  }

  /** A session's name is reported by its worker before anything else. */
  predicate Allowed(c: Core, op: Op) {
    && IsWorkers(op) && Possible(c, op)
    && (op.DoReport? && op.event.ClientRegistered? ==> Silent(c.log))
  }

  lemma OpIsMove(d: Desk, id: uint32, op: Op)
    requires Known(d, id) && Allowed(CoreOf(d, id), op)
    ensures Can(d, MoveFor(op, id)) && OfWorker(MoveFor(op, id))
    ensures var e := Does(d, MoveFor(op, id));
            e == d.(sessions := d.sessions[id - 1 := Do(CoreOf(d, id), op)], events := e.events)
  {
  }

  predicate OfClick(moves: seq<Move>) {
    forall m <- moves :: m.GoOn? || OfWorker(m)
  }

  /** The handler of a click goes on from d to e, with workers coming in between its steps and nothing else. */
  ghost predicate Leads(d: Desk, e: Desk) {
    exists moves :: IsRun(d, moves) && OfClick(moves) && After(d, moves) == e
  }

  lemma LeadsNowhere(d: Desk)
    ensures Leads(d, d)
  {
    assert IsRun(d, []) && After(d, []) == d;
  }

  lemma LeadsOn(start: Desk, d: Desk, m: Move)
    requires Leads(start, d) && Can(d, m) && (m.GoOn? || OfWorker(m))
    ensures Leads(start, Does(d, m))
  {
    var moves :| IsRun(start, moves) && OfClick(moves) && After(start, moves) == d;
    RunAppend(start, moves, m);
    assert OfClick(moves + [m]);
  }

  lemma WorkerGoesOn(start: Desk, d: Desk, id: uint32, op: Op) returns (e: Desk)
    requires Leads(start, d) && Known(d, id) && Allowed(CoreOf(d, id), op)
    ensures Leads(start, e)
    ensures e == d.(sessions := d.sessions[id - 1 := Do(CoreOf(d, id), op)], events := e.events)
  {
    OpIsMove(d, id, op);
    e := Does(d, MoveFor(op, id));
    LeadsOn(start, d, MoveFor(op, id));
  }

  lemma HandlerGoesOn(start: Desk, d: Desk)
    requires Leads(start, d) && !d.window.pc.Ready?
    ensures Leads(start, ClickGoesOn(d))
  {
    LeadsOn(start, d, GoOn);
  }

  lemma HandlerRecords(start: Desk, d: Desk) returns (e: Desk)
    requires Leads(start, d) && d.window.pc.Recording?
    ensures Leads(start, e) && e == d.(window := d.window.(current := Some(d.window.pc.id), pc := Ready))
  {
    HandlerGoesOn(start, d);
    e := ClickGoesOn(d);
  }

  ghost predicate Reachable(d: Desk) {
    exists moves :: IsRun(START, moves) && After(START, moves) == d
  }

  lemma {:induction false} RunsJoin(d: Desk, first: seq<Move>, rest: seq<Move>)
    requires IsRun(d, first) && IsRun(After(d, first), rest)
    ensures IsRun(d, first + rest) && After(d, first + rest) == After(After(d, first), rest)
    decreases |rest|
  {
    if rest == [] {
      assert first + rest == first;
    } else {
      var longer := first + [rest[0]];
      assert longer + rest[1..] == first + rest;
      RunAppend(d, first, rest[0]);
      RunsJoin(d, longer, rest[1..]);
    }
  }

  /** A click handled in a reachable state ends in a reachable one, and has found every client it looked up. */
  lemma ClickStaysReachable(d: Desk, id: uint32, e: Desk)
    requires d.window.pc.Ready? && id in d.window.shown && Leads(Clicked(d, id), e)
    ensures Reachable(d) ==> Reachable(e) && !e.window.missing
  {
    if Reachable(d) {
      var before :| IsRun(START, before) && After(START, before) == d;
      RunAppend(START, before, Click(id));
      var after :| IsRun(Clicked(d, id), after) && OfClick(after) && After(Clicked(d, id), after) == e;
      RunsJoin(START, before + [Click(id)], after);
      NoMissingLookup(before + [Click(id)] + after);
    }
  }

  // ---- about events ----

  function Disconnects(events: seq<GuiEvent>, id: uint32): nat {
    if events == [] then 0
    else Disconnects(events[..|events| - 1], id) + if events[|events| - 1] == Disconnected(id) then 1 else 0
  }

  predicate Seen(events: seq<GuiEvent>, id: uint32) {
    events != [] && (events[|events| - 1] == Connected(id) || Seen(events[..|events| - 1], id))
  }

  /** A session's Connected comes once, before anything else that is said of it. */
  predicate Announced(events: seq<GuiEvent>) {
    events == [] ||
    var before, last := events[..|events| - 1], events[|events| - 1];
    Announced(before) && (last.Connected? <==> !Seen(before, last.id))
  }

  /** The last event about a client is not that it left. */
  predicate Present(events: seq<GuiEvent>, id: uint32) {
    events != [] &&
    var last := events[|events| - 1];
    if last.id == id then !last.Disconnected? else Present(events[..|events| - 1], id)
  }

  lemma EventAppend(events: seq<GuiEvent>, e: GuiEvent, id: uint32)
    ensures Disconnects(events + [e], id) == Disconnects(events, id) + if e == Disconnected(id) then 1 else 0
    ensures Seen(events + [e], id) <==> Seen(events, id) || e == Connected(id)
    ensures Present(events + [e], id) <==> if e.id == id then !e.Disconnected? else Present(events, id)
  {
    assert (events + [e])[..|events|] == events;
  }

  lemma AnnouncedAppend(events: seq<GuiEvent>, e: GuiEvent)
    requires Announced(events) && (e.Connected? <==> !Seen(events, e.id))
    ensures Announced(events + [e])
  {
    assert (events + [e])[..|events|] == events;
  }

  lemma TakeNext(events: seq<GuiEvent>, i: nat)
    requires i < |events|
    ensures events[..i + 1] == events[..i] + [events[i]]
    ensures events[..i + 1][..i] == events[..i]
  {
  }

  lemma {:induction false} PrefixFacts(events: seq<GuiEvent>, i: nat, id: uint32)
    requires i <= |events|
    ensures Disconnects(events[..i], id) <= Disconnects(events, id)
    ensures Seen(events[..i], id) ==> Seen(events, id)
    ensures Announced(events) ==> Announced(events[..i])
    decreases |events| - i
  {
    if i < |events| {
      TakeNext(events, i);
      EventAppend(events[..i], events[i], id);
      PrefixFacts(events, i + 1, id);
    } else {
      assert events[..i] == events;
    }
  }

  lemma {:induction false} PresentIf(events: seq<GuiEvent>, id: uint32)
    requires Seen(events, id) && Disconnects(events, id) == 0
    ensures Present(events, id)
  {
    if events[|events| - 1].id != id {
      PresentIf(events[..|events| - 1], id);
    }
  }

  lemma {:induction false} PresentSeen(events: seq<GuiEvent>, id: uint32)
    requires Announced(events) && Present(events, id)
    ensures Seen(events, id)
  {
    if events[|events| - 1].id != id {
      PresentSeen(events[..|events| - 1], id);
    }
  }

  lemma {:induction false} NoEventsYet(events: seq<GuiEvent>, id: uint32)
    requires forall i :: 0 <= i < |events| ==> events[i].id != id
    ensures Disconnects(events, id) == 0 && !Seen(events, id)
  {
    if events != [] {
      NoEventsYet(events[..|events| - 1], id);
    }
  }

  // ---- the invariant ----

  ghost predicate SessionsFit(sessions: seq<Core>, listed: nat) {
    && listed <= |sessions| < U32
    && (forall i :: 0 <= i < |sessions| ==> CoreInv(sessions[i]))
  }

  ghost predicate Tallies(c: Core, events: seq<GuiEvent>, id: uint32) {
    Seen(events, id) && Disconnects(events, id) == Sessions.Ends(c.log)
  }

  /** Every session is announced, and says Disconnected as often as it has ended. */
  ghost predicate EventsFit(sessions: seq<Core>, events: seq<GuiEvent>)
    requires |sessions| < U32
  {
    && (forall k :: 0 <= k < |sessions| ==> Tallies(sessions[k], events, k + 1))
    && (forall i :: 0 <= i < |events| ==> 1 <= events[i].id <= |sessions|)
    && Announced(events)
  }

  /** The window's map follows from the events handled. */
  ghost predicate WindowFits(w: Window, handled: seq<GuiEvent>) {
    && !w.missing
    && KeysMatch(w.clients) && w.shown == w.clients.Keys
    && (forall id: uint32 :: id in w.clients <==> Present(handled, id))
    && (w.current.Some? ==> Seen(handled, w.current.value))
    && (!w.pc.Ready? ==> w.pc.id in w.clients)
  }

  /** A session that streams is the current one, or about to be recorded as that. */
  ghost predicate StreamsFit(sessions: seq<Core>, listed: nat, cleared: bool, w: Window) {
    forall k :: 0 <= k < |sessions| && sessions[k].state == Streaming ==>
                  k < listed && !cleared && !w.pc.Starting?
                  && if w.pc.Recording? then w.pc.id == k + 1 else w.current.Some? && w.current.value == k + 1
  }

  ghost predicate Inv(d: Desk) {
    && SessionsFit(d.sessions, d.listed)
    && EventsFit(d.sessions, d.events)
    && d.done <= |d.events|
    && WindowFits(d.window, d.events[..d.done])
    && StreamsFit(d.sessions, d.listed, d.cleared, d.window)
  }

  lemma StartHolds()
    ensures Inv(START)
  {
  }

  // ---- every step keeps it ----

  lemma UpdateFits(sessions: seq<Core>, listed: nat, id: uint32, op: Op)
    requires SessionsFit(sessions, listed) && 1 <= id <= |sessions| && Possible(sessions[id - 1], op)
    ensures SessionsFit(sessions[id - 1 := Do(sessions[id - 1], op)], listed)
  {
    DoKeepsInv(sessions[id - 1], op);
  }

  lemma QueueFits(sessions: seq<Core>, next: seq<Core>, events: seq<GuiEvent>, e: GuiEvent)
    requires |sessions| == |next| < U32 && EventsFit(sessions, events) && 1 <= e.id <= |sessions| && !e.Connected?
    requires forall k :: 0 <= k < |sessions| ==>
               Sessions.Ends(next[k].log) == Sessions.Ends(sessions[k].log) + if e == Disconnected(k + 1) then 1 else 0
    ensures EventsFit(next, events + [e])
  {
    forall k | 0 <= k < |next| ensures Tallies(next[k], events + [e], k + 1) {
      assert Tallies(sessions[k], events, k + 1);
      EventAppend(events, e, k + 1);
    }
    assert Tallies(sessions[e.id - 1], events, e.id - 1 + 1);
    AnnouncedAppend(events, e);
  }

  lemma SameCountsFit(sessions: seq<Core>, next: seq<Core>, events: seq<GuiEvent>)
    requires |sessions| == |next| < U32 && EventsFit(sessions, events)
    requires forall k :: 0 <= k < |sessions| ==> Sessions.Ends(next[k].log) == Sessions.Ends(sessions[k].log)
    ensures EventsFit(next, events)
  {
    forall k | 0 <= k < |next| ensures Tallies(next[k], events, k + 1) {
      assert Tallies(sessions[k], events, k + 1);
    }
  }

  lemma SameEndsFit(sessions: seq<Core>, next: seq<Core>, events: seq<GuiEvent>)
    requires |sessions| == |next| < U32 && EventsFit(sessions, events)
    requires forall k :: 0 <= k < |sessions| ==> next[k].log == sessions[k].log
    ensures EventsFit(next, events)
  {
    SameCountsFit(sessions, next, events);
  }

  lemma AcceptFits(sessions: seq<Core>, events: seq<GuiEvent>)
    requires |sessions| + 1 < U32 && EventsFit(sessions, events)
    ensures EventsFit(sessions + [NEW], events + [Connected(|sessions| + 1)])
  {
    var e, next := Connected(|sessions| + 1), sessions + [NEW];
    assert Sessions.Ends(NEW.log) == 0;
    forall k | 0 <= k < |next| ensures Tallies(next[k], events + [e], k + 1) {
      EventAppend(events, e, k + 1);
      if k < |sessions| {
        assert Tallies(sessions[k], events, k + 1);
      } else {
        NoEventsYet(events, k + 1);
      }
    }
    NoEventsYet(events, e.id);
    AnnouncedAppend(events, e);
  }

  lemma AcceptSessions(sessions: seq<Core>, listed: nat, cleared: bool, w: Window)
    requires |sessions| + 1 < U32 && SessionsFit(sessions, listed) && StreamsFit(sessions, listed, cleared, w)
    ensures SessionsFit(sessions + [NEW], listed) && StreamsFit(sessions + [NEW], listed, cleared, w)
  {
    assert Sessions.Ends(NEW.log) == 0;
    forall k | 0 <= k < |sessions| ensures (sessions + [NEW])[k] == sessions[k] {
    }
  }

  lemma TakeKept(events: seq<GuiEvent>, e: GuiEvent, done: nat)
    requires done <= |events|
    ensures (events + [e])[..done] == events[..done]
  {
  }

  lemma AcceptKeeps(d: Desk)
    requires Inv(d) && Can(d, Accept)
    ensures Inv(Does(d, Accept))
  {
    AcceptFits(d.sessions, d.events);
    AcceptSessions(d.sessions, d.listed, d.cleared, d.window);
    TakeKept(d.events, Connected(|d.sessions| + 1), d.done);
  }

  lemma RegisterFits(sessions: seq<Core>, events: seq<GuiEvent>, id: uint32, name: seq<byte>, torn: bool)
    requires 1 <= id <= |sessions| < U32 && EventsFit(sessions, events)
    ensures var core := Do(sessions[id - 1], DoReport(ClientRegistered(name, torn)));
            EventsFit(sessions[id - 1 := core], events + [RegisteredAs(id, name)])
  {
    var e := ClientRegistered(name, torn);
    EndsAppend(sessions[id - 1].log, e);
    QueueFits(sessions, sessions[id - 1 := Do(sessions[id - 1], DoReport(e))], events, RegisteredAs(id, name));
  }

  lemma RegistersKeeps(d: Desk, id: uint32, name: seq<byte>, torn: bool)
    requires Inv(d) && Can(d, Registers(id, name, torn))
    ensures Inv(Does(d, Registers(id, name, torn)))
  {
    UpdateFits(d.sessions, d.listed, id, DoReport(ClientRegistered(name, torn)));
    RegisterFits(d.sessions, d.events, id, name, torn);
    TakeKept(d.events, RegisteredAs(id, name), d.done);
  }

  lemma ShowsKeeps(d: Desk, id: uint32, e: Event)
    requires Inv(d) && Can(d, Shows(id, e))
    ensures Inv(Does(d, Shows(id, e)))
  {
    UpdateFits(d.sessions, d.listed, id, DoReport(e));
    EndsAppend(CoreOf(d, id).log, e);
    SameCountsFit(d.sessions, d.sessions[id - 1 := Do(CoreOf(d, id), DoReport(e))], d.events);
  }

  lemma LosesKeeps(d: Desk, id: uint32)
    requires Inv(d) && Can(d, Loses(id))
    ensures Inv(Does(d, Loses(id)))
  {
    UpdateFits(d.sessions, d.listed, id, DoLoseSocket);
    SameEndsFit(d.sessions, d.sessions[id - 1 := Do(CoreOf(d, id), DoLoseSocket)], d.events);
  }

  lemma EndsKeeps(d: Desk, id: uint32)
    requires Inv(d) && Can(d, Ends(id))
    ensures Inv(Does(d, Ends(id)))
  {
    UpdateFits(d.sessions, d.listed, id, DoTerminate);
    SameEndsFit(d.sessions, d.sessions[id - 1 := TerminateLocked(CoreOf(d, id))], d.events);
  }

  lemma DispatchFits(sessions: seq<Core>, events: seq<GuiEvent>, id: uint32)
    requires 1 <= id <= |sessions| < U32 && EventsFit(sessions, events) && sessions[id - 1].ending > 0
    ensures EventsFit(sessions[id - 1 := DispatchEnded(sessions[id - 1])], events + [Disconnected(id)])
  {
    var next := sessions[id - 1 := DispatchEnded(sessions[id - 1])];
    EndsAppend(sessions[id - 1].log, SessionEnded);
    forall k | 0 <= k < |sessions|
      ensures Sessions.Ends(next[k].log)
              == Sessions.Ends(sessions[k].log) + if Disconnected(id) == Disconnected(k + 1) then 1 else 0
    {
      if k == id - 1 {
        assert next[k].log == sessions[k].log + [SessionEnded];
      }
    }
    QueueFits(sessions, next, events, Disconnected(id));
  }

  lemma DispatchesKeeps(d: Desk, id: uint32)
    requires Inv(d) && Can(d, Dispatches(id))
    ensures Inv(Does(d, Dispatches(id)))
  {
    UpdateFits(d.sessions, d.listed, id, DoDispatchEnded);
    DispatchFits(d.sessions, d.events, id);
    TakeKept(d.events, Disconnected(id), d.done);
  }

  lemma CoreEndsOnce(sessions: seq<Core>, listed: nat, k: nat)
    requires SessionsFit(sessions, listed) && k < |sessions|
    ensures Sessions.Ends(sessions[k].log) <= 1
    ensures sessions[k].state != Terminated ==> Sessions.Ends(sessions[k].log) == 0
  {
    assert CoreInv(sessions[k]);
  }

  /** A disconnect is handled while its client is still in the map. */
  lemma DisconnectFindsClient(d: Desk)
    requires Inv(d) && d.done < |d.events| && d.events[d.done].Disconnected?
    ensures d.events[d.done].id in d.window.clients
  {
    var e := d.events[d.done];
    TakeNext(d.events, d.done);
    EventAppend(d.events[..d.done], e, e.id);
    PrefixFacts(d.events, d.done + 1, e.id);
    assert Announced(d.events[..d.done + 1]);
    assert Tallies(d.sessions[e.id - 1], d.events, e.id - 1 + 1);
    CoreEndsOnce(d.sessions, d.listed, e.id - 1);
    PresentIf(d.events[..d.done], e.id);
  }

  lemma HandlingFits(w: Window, handled: seq<GuiEvent>, e: GuiEvent, peer: seq<byte>)
    requires WindowFits(w, handled) && w.pc.Ready? && (e.Disconnected? ==> e.id in w.clients)
    ensures WindowFits(Handled(w, e, peer), handled + [e])
  {
    forall id: uint32 ensures id in Handled(w, e, peer).clients <==> Present(handled + [e], id) {
      EventAppend(handled, e, id);
    }
    if w.current.Some? {
      EventAppend(handled, e, w.current.value);
    }
  }

  lemma HandlesKeeps(d: Desk, peer: seq<byte>)
    requires Inv(d) && Can(d, Handles(peer))
    ensures Inv(Does(d, Handles(peer)))
  {
    if d.events[d.done].Disconnected? {
      DisconnectFindsClient(d);
    }
    TakeNext(d.events, d.done);
    HandlingFits(d.window, d.events[..d.done], d.events[d.done], peer);
  }

  /** The current client is still in the map if its session streams. */
  lemma StreamerIsPresent(d: Desk, id: uint32)
    requires Inv(d) && Known(d, id) && CoreOf(d, id).state == Streaming && Seen(d.events[..d.done], id)
    ensures id in d.window.clients
  {
    PrefixFacts(d.events, d.done, id);
    assert Tallies(d.sessions[id - 1], d.events, id - 1 + 1);
    CoreEndsOnce(d.sessions, d.listed, id - 1);
    PresentIf(d.events[..d.done], id);
  }

  lemma StopStepKeeps(d: Desk)
    requires Inv(d) && d.window.pc.Stopping?
    ensures Inv(ClickGoesOn(d))
  {
    var w := d.window;
    if w.current.Some? && Listed(d, w.current.value) {
      var id := w.current.value;
      if CoreOf(d, id).state == Streaming {
        StreamerIsPresent(d, id);
      }
      UpdateFits(d.sessions, d.listed, id, DoStop);
      SameEndsFit(d.sessions, d.sessions[id - 1 := Stop(CoreOf(d, id)).0], d.events);
    }
  }

  lemma StartStepKeeps(d: Desk)
    requires Inv(d) && d.window.pc.Starting?
    ensures Inv(ClickGoesOn(d))
  {
    var id := d.window.pc.id;
    if Listed(d, id) {
      UpdateFits(d.sessions, d.listed, id, DoStart);
      SameEndsFit(d.sessions, d.sessions[id - 1 := Start(CoreOf(d, id)).0], d.events);
    }
  }

  lemma RecordStepKeeps(d: Desk)
    requires Inv(d) && d.window.pc.Recording?
    ensures Inv(ClickGoesOn(d))
  {
    PrefixFacts(d.events, d.done, d.window.pc.id);
    PresentSeen(d.events[..d.done], d.window.pc.id);
  }

  lemma DoesKeepsInv(d: Desk, m: Move)
    requires Inv(d) && Can(d, m)
    ensures Inv(Does(d, m))
  {
    match m
    case Accept => AcceptKeeps(d);
    case PutOnList =>
    case Registers(id, name, torn) => RegistersKeeps(d, id, name, torn);
    case Shows(id, e) => ShowsKeeps(d, id, e);
    case Loses(id) => LosesKeeps(d, id);
    case Ends(id) => EndsKeeps(d, id);
    case Dispatches(id) => DispatchesKeeps(d, id);
    case Handles(peer) => HandlesKeeps(d, peer);
    case Click(id) =>
    case GoOn =>
      match d.window.pc {
        case Stopping(_) => StopStepKeeps(d);
        case Starting(_) => StartStepKeeps(d);
        case Recording(_) => RecordStepKeeps(d);
      }
    case Clear => ClearKeeps(d);
  }

  lemma ClearKeeps(d: Desk)
    requires Inv(d) && Can(d, Clear)
    ensures Inv(Does(d, Clear))
  {
  }

  lemma {:induction false} RunKeepsInv(d: Desk, moves: seq<Move>)
    requires Inv(d) && IsRun(d, moves)
    ensures Inv(After(d, moves))
    decreases |moves|
  {
    if moves != [] {
      DoesKeepsInv(d, moves[0]);
      RunKeepsInv(Does(d, moves[0]), moves[1..]);
    }
  }

  // ---- the theorems ----

  /** Over all interleavings no handler of the window looks up a client that is not there: neither the one that is told
      to disconnect nor the two that a click concerns. */
  lemma NoMissingLookup(moves: seq<Move>)
    requires IsRun(START, moves)
    ensures !After(START, moves).window.missing
  {
    StartHolds();
    RunKeepsInv(START, moves);
  }

  /** Over all interleavings at most one session streams, and while no click is being handled it is the current one. */
  lemma OneStreamer(moves: seq<Move>, i: nat, j: nat)
    requires IsRun(START, moves)
    requires var d := After(START, moves);
             && i < |d.sessions| && d.sessions[i].state == Streaming
             && j < |d.sessions| && d.sessions[j].state == Streaming
    ensures i == j
    ensures var w := After(START, moves).window; w.pc.Ready? ==> w.current.Some? && w.current.value == i + 1
  {
    StartHolds();
    RunKeepsInv(START, moves);
  }

  /** The handler of a click gone on with to its end, with nothing coming in between. */
  function Finished(d: Desk): Desk
    decreases match d.window.pc case Ready => 0 case Recording(_) => 1 case Starting(_) => 2 case Stopping(_) => 3
  {
    if d.window.pc.Ready? then d else Finished(ClickGoesOn(d))
  }

  predicate Streams(d: Desk, k: nat) {
    k < |d.sessions| && d.sessions[k].state == Streaming
  }

  /** A click on this client starts its session: it is not the current one, and its session is there and not over. */
  predicate Wanted(d: Desk, id: uint32) {
    d.window.current != Some(id) && Listed(d, id) && Known(d, id) && CoreOf(d, id).state != Terminated
  }

  lemma StopKeeps(d: Desk)
    requires Inv(d) && d.window.pc.Stopping?
    ensures var e := ClickGoesOn(d);
            && Inv(e) && !e.window.pc.Recording? && !e.window.pc.Stopping? && (forall k :: !Streams(e, k))
            && (e.window.pc.Starting? ==> (Wanted(e, d.window.pc.id) <==> Wanted(d, d.window.pc.id)))
            && (e.window.pc.Starting? <==> d.window.current != Some(d.window.pc.id))
            && (e.window.pc.Starting? ==> e.window == d.window.(pc := Starting(d.window.pc.id)))
            && (!e.window.pc.Starting? ==> e.window.pc.Ready? && e.window.current == None)
  {
    DoesKeepsInv(d, GoOn);
  }

  lemma StartLeads(d: Desk)
    requires Inv(d) && d.window.pc.Starting? && forall k :: !Streams(d, k)
    requires d.window.current != Some(d.window.pc.id)
    ensures var e, id := Finished(d), d.window.pc.id;
            && e.window.pc.Ready?
            && e.window.current == (if Wanted(d, id) then Some(id) else d.window.current)
            && forall k :: Streams(e, k) <==> Wanted(d, id) && k == id - 1
  {
    DoesKeepsInv(d, GoOn);
    var e := ClickGoesOn(d);
    if e.window.pc.Recording? {
      assert Finished(e) == ClickGoesOn(e);
    }
  }

  lemma StopLeads(d: Desk)
    requires Inv(d) && d.window.pc.Stopping?
    ensures var e, id := Finished(d), d.window.pc.id;
            && e.window.pc.Ready?
            && e.window.current == (if d.window.current == Some(id) then None
                                    else if Wanted(d, id) then Some(id) else d.window.current)
            && forall k :: Streams(e, k) <==> Wanted(d, id) && k == id - 1
  {
    StopKeeps(d);
    if ClickGoesOn(d).window.pc.Starting? {
      StartLeads(ClickGoesOn(d));
    }
  }

  /** A click toggles: on the current client it ends all streaming. On any other it ends that, too, and starts the
      session clicked, as the only one and the current one, exactly if it is on the server's list and not over. */
  lemma ClickToggles(moves: seq<Move>, id: uint32)
    requires IsRun(START, moves) && Can(After(START, moves), Click(id))
    ensures var d, e := After(START, moves), Finished(Does(After(START, moves), Click(id)));
            && e.window.pc.Ready?
            && e.window.current == (if d.window.current == Some(id) then None
                                    else if Wanted(d, id) then Some(id) else d.window.current)
            && forall k :: Streams(e, k) <==> Wanted(d, id) && k == id - 1
  {
    StartHolds();
    RunKeepsInv(START, moves);
    DoesKeepsInv(After(START, moves), Click(id));
    StopLeads(Does(After(START, moves), Click(id)));
  }

  /** Every key of the map is its entry's identifier, and there is a button for exactly the entries of the map: so the
      list displayed is determined by the map (DisplayUnique). */
  lemma KeysAndButtons(moves: seq<Move>)
    requires IsRun(START, moves)
    ensures var w := After(START, moves).window; KeysMatch(w.clients) && w.shown == w.clients.Keys
  {
    StartHolds();
    RunKeepsInv(START, moves);
  }

  /** The last of these events about its client. */
  predicate LastOf(events: seq<GuiEvent>, i: nat)
    requires i < |events|
  {
    forall j :: i < j < |events| ==> events[j].id != events[i].id
  }

  /** What a client is shown under after its last event. */
  predicate NamedBy(clients: map<uint32, ClientInfo>, e: GuiEvent, peer: seq<byte>) {
    match e
    case Connected(id) => id in clients && clients[id] == ClientInfo(id, peer)
    case RegisteredAs(id, name) => id in clients && clients[id] == ClientInfo(id, name)
    case Disconnected(id) => id !in clients
  }

  ghost predicate NamesFit(clients: map<uint32, ClientInfo>, handled: seq<GuiEvent>, peers: seq<seq<byte>>) {
    && |peers| == |handled|
    && forall i :: 0 <= i < |handled| && LastOf(handled, i) ==> NamedBy(clients, handled[i], peers[i])
  }

  ghost predicate NamesInv(d: Desk) {
    d.done <= |d.events| && !d.window.missing && NamesFit(d.window.clients, d.events[..d.done], d.peers)
  }

  lemma HandlingNames(w: Window, handled: seq<GuiEvent>, peers: seq<seq<byte>>, e: GuiEvent, peer: seq<byte>)
    requires NamesFit(w.clients, handled, peers) && !Handled(w, e, peer).missing
    ensures NamesFit(Handled(w, e, peer).clients, handled + [e], peers + [peer])
  {
    var longer := handled + [e];
    forall i | 0 <= i < |longer| && LastOf(longer, i)
      ensures NamedBy(Handled(w, e, peer).clients, longer[i], (peers + [peer])[i])
    {
      if i < |handled| {
        assert longer[|handled|].id != longer[i].id;
        assert forall j :: i < j < |handled| ==> longer[j] == handled[j];
        assert LastOf(handled, i);
      }
    }
  }

  lemma OtherKeepsNames(d: Desk, e: Desk)
    requires NamesInv(d) && !e.window.missing && d.events <= e.events
    requires e.window.clients == d.window.clients && e.peers == d.peers && e.done == d.done
    ensures NamesInv(e)
  {
    assert e.events[..d.done] == d.events[..d.done];
  }

  lemma HandlesKeepsNames(d: Desk, peer: seq<byte>)
    requires NamesInv(d) && Can(d, Handles(peer)) && !Does(d, Handles(peer)).window.missing
    ensures NamesInv(Does(d, Handles(peer)))
  {
    TakeNext(d.events, d.done);
    HandlingNames(d.window, d.events[..d.done], d.peers, d.events[d.done], peer);
  }

  lemma StepKeepsNames(d: Desk, m: Move)
    requires NamesInv(d) && Can(d, m) && !Does(d, m).window.missing
    ensures NamesInv(Does(d, m))
  {
    if m.Handles? {
      HandlesKeepsNames(d, m.peer);
    } else {
      OtherKeepsNames(d, Does(d, m));
    }
  }

  lemma {:induction false} RunKeepsNames(d: Desk, moves: seq<Move>)
    requires Inv(d) && NamesInv(d) && IsRun(d, moves)
    ensures NamesInv(After(d, moves))
    decreases |moves|
  {
    if moves != [] {
      DoesKeepsInv(d, moves[0]);
      StepKeepsNames(d, moves[0]);
      RunKeepsNames(Does(d, moves[0]), moves[1..]);
    }
  }

  /** Over all interleavings: take any event handled after which none about its client has been. If the client
      connected, it is shown under the address of its peer as found then; if its name was reported, under that name; and
      if it left, it is not shown. */
  lemma ShownUnder(moves: seq<Move>, i: nat)
    requires IsRun(START, moves)
    requires var d := After(START, moves);
             i < d.done <= |d.events| && forall j :: i < j < d.done ==> d.events[j].id != d.events[i].id
    ensures var d := After(START, moves);
            && i < |d.peers|
            && match d.events[i]
               case Connected(id) => id in d.window.clients && d.window.clients[id].username == d.peers[i]
               case RegisteredAs(id, name) => id in d.window.clients && d.window.clients[id].username == name
               case Disconnected(id) => id !in d.window.clients
  {
    StartHolds();
    assert NamesInv(START);
    RunKeepsNames(START, moves);
    var d := After(START, moves);
    assert LastOf(d.events[..d.done], i);
    assert NamedBy(d.window.clients, d.events[..d.done][i], d.peers[i]);
  }

  /** The client left and its name was reported after that. */
  predicate RegisteredLate(events: seq<GuiEvent>, id: uint32) {
    exists i, j :: 0 <= i < j < |events|
                   && events[i] == Disconnected(id) && events[j].RegisteredAs? && events[j].id == id
  }

  lemma {:induction false} DisconnectedAt(events: seq<GuiEvent>, id: uint32) returns (i: nat)
    requires Disconnects(events, id) > 0
    ensures i < |events| && events[i] == Disconnected(id)
  {
    if events[|events| - 1] == Disconnected(id) {
      return |events| - 1;
    }
    i := DisconnectedAt(events[..|events| - 1], id);
  }

  lemma {:induction false} PresentExactly(events: seq<GuiEvent>, id: uint32)
    requires Announced(events) && Disconnects(events, id) <= 1
    ensures Present(events, id) <==> Seen(events, id) && (Disconnects(events, id) == 0 || RegisteredLate(events, id))
  {
    if events != [] {
      var before, last := events[..|events| - 1], events[|events| - 1];
      PresentExactly(before, id);
      LateGrows(before, last, id);
      if RegisteredLate(before, id) {
        LateMeansLeft(before, id);
      }
      if !Seen(before, id) {
        UnseenIsQuiet(before, id);
      }
      assert events == before + [last];
    }
  }

  lemma LateMeansLeft(events: seq<GuiEvent>, id: uint32)
    requires RegisteredLate(events, id)
    ensures Disconnects(events, id) > 0
  {
    var i, j :| 0 <= i < j < |events| && events[i] == Disconnected(id) && events[j].RegisteredAs? && events[j].id == id;
    DisconnectCounted(events, id, i);
  }

  lemma {:induction false} UnseenIsQuiet(events: seq<GuiEvent>, id: uint32)
    requires Announced(events) && !Seen(events, id)
    ensures Disconnects(events, id) == 0
  {
    if events != [] {
      UnseenIsQuiet(events[..|events| - 1], id);
    }
  }

  lemma LateGrows(before: seq<GuiEvent>, last: GuiEvent, id: uint32)
    ensures RegisteredLate(before + [last], id) <==>
              RegisteredLate(before, id) || (last.RegisteredAs? && last.id == id && Disconnects(before, id) > 0)
  {
    var events := before + [last];
    assert forall i :: 0 <= i < |before| ==> before[i] == events[i];
    if RegisteredLate(before, id) {
      var i, j :| 0 <= i < j < |before|
                  && before[i] == Disconnected(id) && before[j].RegisteredAs? && before[j].id == id;
      assert events[i] == Disconnected(id) && events[j].RegisteredAs? && events[j].id == id;
    }
    if last.RegisteredAs? && last.id == id && Disconnects(before, id) > 0 {
      var i := DisconnectedAt(before, id);
      assert events[i] == Disconnected(id) && events[|before|] == last;
    }
    if RegisteredLate(events, id) {
      var i, j :| 0 <= i < j < |events|
                  && events[i] == Disconnected(id) && events[j].RegisteredAs? && events[j].id == id;
      if j == |before| {
        DisconnectCounted(before, id, i);
      }
    }
  }

  lemma {:induction false} DisconnectCounted(events: seq<GuiEvent>, id: uint32, i: nat)
    requires i < |events| && events[i] == Disconnected(id)
    ensures Disconnects(events, id) > 0
  {
    if i < |events| - 1 {
      DisconnectCounted(events[..|events| - 1], id, i);
    }
  }

  /** Which clients the map holds: those connected that have not left, and those whose name was reported only after they
      had left. The latter stay, with a button for a session that is over. */
  lemma ClientsExactly(moves: seq<Move>, id: uint32)
    requires IsRun(START, moves)
    ensures var d := After(START, moves);
            var handled := if d.done <= |d.events| then d.events[..d.done] else [];
            id in d.window.clients <==>
              Seen(handled, id) && (Disconnects(handled, id) == 0 || RegisteredLate(handled, id))
  {
    StartHolds();
    RunKeepsInv(START, moves);
    var d := After(START, moves);
    var handled := d.events[..d.done];
    PrefixFacts(d.events, d.done, id);
    if 1 <= id <= |d.sessions| {
      CoreEndsOnce(d.sessions, d.listed, id - 1);
      assert Tallies(d.sessions[id - 1], d.events, id - 1 + 1);
    } else {
      NoEventsYet(d.events, id);
    }
    PresentExactly(handled, id);
  }

  /** So, once the window has handled all events, the map holds exactly the clients whose sessions live, are terminated
      but still to dispatch their end, or had their names reported only after they had left. */
  lemma ClientsAreLive(moves: seq<Move>, id: uint32)
    requires IsRun(START, moves)
    requires var d := After(START, moves); d.done == |d.events| && Known(d, id)
    ensures var d := After(START, moves);
            id in d.window.clients <==>
              CoreOf(d, id).state != Terminated || CoreOf(d, id).ending > 0 || RegisteredLate(d.events, id)
  {
    ClientsExactly(moves, id);
    StartHolds();
    RunKeepsInv(START, moves);
    var d := After(START, moves);
    assert d.events[..d.done] == d.events;
    assert Tallies(d.sessions[id - 1], d.events, id - 1 + 1);
    assert CoreInv(d.sessions[id - 1]);
  }

  lemma {:induction false} RunAppend(d: Desk, moves: seq<Move>, m: Move)
    requires IsRun(d, moves) && Can(After(d, moves), m)
    ensures IsRun(d, moves + [m]) && After(d, moves + [m]) == Does(After(d, moves), m)
    decreases |moves|
  {
    if moves == [] {
      assert [m][1..] == [];
      assert IsRun(Does(d, m), []);
      assert [] + [m] == [m];
    } else {
      RunAppend(Does(d, moves[0]), moves[1..], m);
      assert (moves + [m])[1..] == moves[1..] + [m];
    }
  }

  lemma Go(moves: seq<Move>, d: Desk, m: Move) returns (longer: seq<Move>, e: Desk)
    requires IsRun(START, moves) && After(START, moves) == d && Can(d, m)
    ensures IsRun(START, longer) && After(START, longer) == e && e == Does(d, m)
  {
    RunAppend(START, moves, m);
    return moves + [m], Does(d, m);
  }

  lemma EndsEarly() returns (moves: seq<Move>, d: Desk)
    ensures IsRun(START, moves) && After(START, moves) == d
    ensures d == START.(sessions := [Core(Terminated, false, 0, [SessionStarted, SessionEnded])], listed := 1,
                        events := [Connected(1), Disconnected(1)])
  {
    moves, d := [], START;
    moves, d := Go(moves, d, Accept);
    moves, d := Go(moves, d, PutOnList);
    moves, d := Go(moves, d, Ends(1));
    assert d.sessions == [TerminateLocked(NEW)] && d.events == [Connected(1)];
    moves, d := Go(moves, d, Dispatches(1));
    assert d.sessions == [DispatchEnded(TerminateLocked(NEW))];
    assert d.events == [Connected(1), Disconnected(1)];
    assert NEW.log + [SessionEnded] == [SessionStarted, SessionEnded];
  }

  /** Such a client is reached: its session is terminated while its worker has the name but has not reported it. */
  lemma StaleClientIsReached()
    ensures exists moves :: IsRun(START, moves)
                            && var d := After(START, moves);
                               && 1 in d.window.clients && d.done == |d.events|
                               && |d.sessions| == 1 && d.sessions[0].state == Terminated && d.sessions[0].ending == 0
  {
    var moves, d := EndsEarly();
    moves, d := Go(moves, d, Registers(1, [], false));
    moves, d := Go(moves, d, Handles([]));
    moves, d := Go(moves, d, Handles([]));
    moves, d := Go(moves, d, Handles([]));
  }
}
