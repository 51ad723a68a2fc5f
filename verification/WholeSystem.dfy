/** The whole program: any number of sessions that follow the protocol side by side, each with its client, the
    dispatcher that turns what they report into events, and the server's window. */
module WholeSystem {
  import opened Bytes
  import opened Options
  import opened Sessions
  import P = Protocol
  import ProtocolInvariant
  import ProtocolProofs
  import ProtocolStreams
  import ProtocolTheorems
  import D = Desktop
  import Projection

  /** `systems[k]` is the session of identifier k + 1 with its client; the rest is as in Desktop. */
  datatype Program = Program(
    systems: seq<P.System>,
    listed: nat,
    cleared: bool,
    events: seq<D.GuiEvent>,
    done: nat,
    window: D.Window,
    peers: seq<seq<byte>>)

  const BLANK := Program([], 0, false, [], 0, D.START.window, [])

  datatype Act =
    | Accepts(legacy: bool)
    | Lists
    | ByOne(k: nat, a: P.Action)
    | Handles(peer: seq<byte>)
    | Clicks(id: uint32)
    | GoesOn
    | Clears

  // ---- the dispatcher ----

  function Queued(e: Event, id: uint32): seq<D.GuiEvent> {
    match e
    case SessionStarted => [D.Connected(id)]
    case ClientRegistered(name, _) => [D.RegisteredAs(id, name)]
    case FrameReceived(_, _, _) => []
    case SessionEnded => [D.Disconnected(id)]
  }

  function QueuedAll(log: seq<Event>, id: uint32): seq<D.GuiEvent> {
    if log == [] then [] else Queued(log[0], id) + QueuedAll(log[1..], id)
  }

  /** What a step of the session has added to its log. */
  function News(before: Core, after: Core): seq<Event> {
    if |before.log| <= |after.log| then after.log[|before.log|..] else []
  }

  // ---- steps ----

  predicate OnList(p: Program, id: uint32) {
    1 <= id <= p.listed && !p.cleared && id <= |p.systems|
  }

  predicate Can(p: Program, a: Act) {
    match a
    case Accepts(_) => p.listed == |p.systems| && !p.cleared && |p.systems| + 1 < U32
    case Lists => p.listed < |p.systems| && !p.cleared
    case ByOne(k, a) => k < |p.systems| < U32 && P.Can(p.systems[k], a) && !Projection.ByWindow(a)
    case Handles(_) => p.window.pc.Ready? && p.done < |p.events|
    case Clicks(id) => p.window.pc.Ready? && id in p.window.shown
    case GoesOn => !p.window.pc.Ready?
    case Clears =>
      && p.window.pc.Ready? && p.listed == |p.systems|
      && forall k :: 0 <= k < |p.systems| ==> p.systems[k].server.pc.Finished?  // each session has been joined
  }

  function Does(p: Program, a: Act): Program
    requires Can(p, a)
  {
    match a
    case Accepts(legacy) =>
      p.(systems := p.systems + [P.Init(legacy)],
         events := p.events + QueuedAll(P.Init(legacy).server.core.log, |p.systems| + 1))
    case Lists => p.(listed := p.listed + 1)
    case ByOne(k, a) =>
      var s, t := p.systems[k], P.Does(p.systems[k], a);
      p.(systems := p.systems[k := t], events := p.events + QueuedAll(News(s.server.core, t.server.core), k + 1))
    case Handles(peer) =>
      p.(done := p.done + 1, window := D.Handled(p.window, p.events[p.done], peer), peers := p.peers + [peer])
    case Clicks(id) => p.(window := p.window.(pc := D.Stopping(id)))
    case GoesOn => ClickGoesOn(p)
    case Clears => p.(cleared := true)
  }

  /** The steps of a click's handler on the session that it stops or starts. */
  function ClickGoesOn(p: Program): Program
    requires !p.window.pc.Ready?
  {
    var w := p.window;
    match w.pc
    case Stopping(id) =>
      if w.current.Some? && OnList(p, w.current.value) then
        var k := w.current.value - 1;
        var stopped := Stop(p.systems[k].server.core).1;
        p.(systems := p.systems[k := P.Does(p.systems[k], P.ByOther(P.StopIt))], window := D.AfterStop(w, id, stopped))
      else p.(window := D.AfterStop(w, id, false))
    case Starting(id) =>
      if id !in w.clients then p.(window := w.(missing := true, pc := D.Ready))
      else if !OnList(p, id) then p.(window := w.(pc := D.Ready))
      else
        var started := Start(p.systems[id - 1].server.core).1;
        p.(systems := p.systems[id - 1 := P.Does(p.systems[id - 1], P.ByOther(P.StartIt))],
           window := w.(pc := if started then D.Recording(id) else D.Ready))
    case Recording(id) => p.(window := w.(current := Some(id), pc := D.Ready))
  }

  predicate IsRun(p: Program, run: seq<Act>)
    decreases |run|
  {
    run == [] || (Can(p, run[0]) && IsRun(Does(p, run[0]), run[1..]))
  }

  function After(p: Program, run: seq<Act>): Program
    requires IsRun(p, run)
    decreases |run|
  {
    if run == [] then p else After(Does(p, run[0]), run[1..])
  }

  // ---- the desktop in it ----

  function Cores(systems: seq<P.System>): (cores: seq<Core>)
    ensures |cores| == |systems| && forall i :: 0 <= i < |systems| ==> cores[i] == systems[i].server.core
  {
    seq(|systems|, i requires 0 <= i < |systems| => systems[i].server.core)
  }

  function View(p: Program): D.Desk {
    D.Desk(Cores(p.systems), p.listed, p.cleared, p.events, p.done, p.window, p.peers)
  }

  /** s is a state that a session and its client reach from their start. */
  ghost predicate Reached(s: P.System) {
    exists run :: P.IsRun(P.Init(s.legacy), run) && P.After(P.Init(s.legacy), run) == s
  }

  ghost predicate Fits(p: Program) {
    |p.systems| < U32 && forall s <- p.systems :: Reached(s)
  }

  lemma ReachedFits(s: P.System)
    requires Reached(s)
    ensures ProtocolInvariant.Inv(s)
  {
    var run :| P.IsRun(P.Init(s.legacy), run) && P.After(P.Init(s.legacy), run) == s;
    ProtocolProofs.InitHolds(s.legacy);
    ProtocolProofs.RunKeepsInv(P.Init(s.legacy), run);
  }

  lemma ReachedStep(s: P.System, a: P.Action)
    requires Reached(s) && P.Can(s, a)
    ensures Reached(P.Does(s, a))
  {
    var run :| P.IsRun(P.Init(s.legacy), run) && P.After(P.Init(s.legacy), run) == s;
    ProtocolStreams.RunAppend(P.Init(s.legacy), run, a);
  }

  lemma ReachedAtStart(legacy: bool)
    ensures Reached(P.Init(legacy))
  {
    assert P.IsRun(P.Init(legacy), []) && P.After(P.Init(legacy), []) == P.Init(legacy);
  }

  lemma OneChanged(p: Program, k: nat, s: P.System)
    requires Fits(p) && k < |p.systems| && Reached(s)
    ensures Fits(p.(systems := p.systems[k := s]))
    ensures Cores(p.systems[k := s]) == Cores(p.systems)[k := s.server.core]
  {
    forall t | t in p.systems[k := s] ensures Reached(t) {
    }
  }

  lemma MoveIsWorkers(s: P.System, a: P.Action, id: uint32)
    ensures var m := Projection.MoveOf(s, a, id); m.Some? ==> D.OfWorker(m.value) && m.value.id == id
  {
  }

  lemma NewsOf(log: seq<Event>, e: Event, c: Core, d: Core, id: uint32)
    requires c.log == log && d.log == log + [e]
    ensures QueuedAll(News(c, d), id) == Queued(e, id)
  {
    assert d.log[|log|..] == [e];
    assert QueuedAll([e], id) == Queued(e, id) + QueuedAll([], id);
  }

  lemma MoveQueues(d: D.Desk, m: D.Move, id: uint32)
    requires D.OfWorker(m) && m.id == id && D.Can(d, m)
    ensures var e := D.Does(d, m);
            e.events == d.events + QueuedAll(News(D.CoreOf(d, id), D.CoreOf(e, id)), id)
  {
    var c := D.CoreOf(d, id);
    var after := D.CoreOf(D.Does(d, m), id);
    match m
    case Registers(_, name, torn) => NewsOf(c.log, ClientRegistered(name, torn), c, after, id);
    case Shows(_, e) => NewsOf(c.log, e, c, after, id);
    case Dispatches(_) => NewsOf(c.log, SessionEnded, c, after, id);
    case _ =>
  }

  /** Each step of one session queues what the move that it is on the desktop queues. */
  lemma NewsAreQueued(s: P.System, a: P.Action, d: D.Desk, id: uint32)
    requires Reached(s) && P.Can(s, a) && !Projection.ByWindow(a)
    requires D.Known(d, id) && D.CoreOf(d, id) == s.server.core
    ensures var m, core := Projection.MoveOf(s, a, id), P.Does(s, a).server.core;
            var news := QueuedAll(News(s.server.core, core), id);
            if m.None? then core == s.server.core && news == []
            else D.Can(d, m.value)
                 && D.Does(d, m.value) == d.(sessions := d.sessions[id - 1 := core], events := d.events + news)
  {
    ReachedFits(s);
    Projection.StepProjects(s, a, d, id);
    var m := Projection.MoveOf(s, a, id);
    MoveIsWorkers(s, a, id);
    if m.Some? {
      MoveQueues(d, m.value, id);
    }
  }

  lemma ViewOfOne(p: Program, k: nat, s: P.System, news: seq<D.GuiEvent>)
    requires Fits(p) && k < |p.systems| && Reached(s)
    ensures var q := p.(systems := p.systems[k := s], events := p.events + news);
            Fits(q)
            && View(q) == View(p).(sessions := View(p).sessions[k := s.server.core], events := View(p).events + news)
  {
    OneChanged(p, k, s);
  }

  /** The step from p to q is this move of the desktop, or none. */
  predicate Viewed(p: Program, q: Program, m: Option<D.Move>) {
    if m.None? then View(q) == View(p) else D.Can(View(p), m.value) && D.Does(View(p), m.value) == View(q)
  }

  lemma OneViewed(p: Program, k: nat, t: P.System, news: seq<D.GuiEvent>, m: Option<D.Move>)
    requires Fits(p) && k < |p.systems| && Reached(t)
    requires var d := View(p);
             if m.None? then t.server.core == p.systems[k].server.core && news == []
             else D.Can(d, m.value)
                  && D.Does(d, m.value)
                     == d.(sessions := d.sessions[k := t.server.core], events := d.events + news)
    ensures var q := p.(systems := p.systems[k := t], events := p.events + news); Fits(q) && Viewed(p, q, m)
  {
    ViewOfOne(p, k, t, news);
    if m.None? {
      assert View(p).sessions[k := t.server.core] == View(p).sessions;
      assert p.events + [] == p.events;
    }
  }

  lemma OneSteps(p: Program, k: nat, a: P.Action) returns (m: Option<D.Move>)
    requires Fits(p) && Can(p, ByOne(k, a))
    ensures Fits(Does(p, ByOne(k, a))) && Viewed(p, Does(p, ByOne(k, a)), m)
  {
    var s, t := p.systems[k], P.Does(p.systems[k], a);
    ReachedStep(s, a);
    NewsAreQueued(s, a, View(p), k + 1);
    m := Projection.MoveOf(s, a, k + 1);
    OneViewed(p, k, t, QueuedAll(News(s.server.core, t.server.core), k + 1), m);
  }

  lemma AcceptSteps(p: Program, legacy: bool)
    requires Fits(p) && Can(p, Accepts(legacy))
    ensures Fits(Does(p, Accepts(legacy)))
    ensures D.Can(View(p), D.Accept) && D.Does(View(p), D.Accept) == View(Does(p, Accepts(legacy)))
  {
    ReachedAtStart(legacy);
    var id := |p.systems| + 1;
    assert Cores(p.systems + [P.Init(legacy)]) == Cores(p.systems) + [NEW];
    assert QueuedAll([SessionStarted], id) == [D.Connected(id)] + QueuedAll([], id);
  }

  lemma StopSteps(p: Program)
    requires Fits(p) && p.window.pc.Stopping?
    ensures Fits(ClickGoesOn(p)) && D.ClickGoesOn(View(p)) == View(ClickGoesOn(p))
  {
    var w := p.window;
    if w.current.Some? && OnList(p, w.current.value) {
      var k := w.current.value - 1;
      var s := p.systems[k];
      ReachedStep(s, P.ByOther(P.StopIt));
      OneChanged(p, k, P.Does(s, P.ByOther(P.StopIt)));
      Projection.StopProjects(s, View(p), k + 1);
    }
  }

  lemma StartSteps(p: Program)
    requires Fits(p) && p.window.pc.Starting?
    ensures Fits(ClickGoesOn(p)) && D.ClickGoesOn(View(p)) == View(ClickGoesOn(p))
  {
    var id := p.window.pc.id;
    if id in p.window.clients && OnList(p, id) {
      var s := p.systems[id - 1];
      ReachedStep(s, P.ByOther(P.StartIt));
      OneChanged(p, id - 1, P.Does(s, P.ByOther(P.StartIt)));
      Projection.StartProjects(s, View(p), id);
    }
  }

  lemma AllFinished(p: Program)
    requires Fits(p) && Can(p, Clears)
    ensures D.Can(View(p), D.Clear)
  {
    forall i | 0 <= i < |p.systems| ensures p.systems[i].server.core.state == Terminated {
      ReachedFits(p.systems[i]);
    }
  }

  /** Every step of the program is a move of the desktop, or none. */
  lemma StepIsMove(p: Program, a: Act) returns (m: Option<D.Move>)
    requires Fits(p) && Can(p, a)
    ensures Fits(Does(p, a)) && Viewed(p, Does(p, a), m)
  {
    match a
    case Accepts(legacy) =>
      AcceptSteps(p, legacy);
      m := Some(D.Accept);
    case Lists => m := Some(D.PutOnList);
    case ByOne(k, b) => m := OneSteps(p, k, b);
    case Handles(peer) => m := Some(D.Handles(peer));
    case Clicks(id) => m := Some(D.Click(id));
    case GoesOn =>
      if p.window.pc.Stopping? {
        StopSteps(p);
      } else if p.window.pc.Starting? {
        StartSteps(p);
      }
      m := Some(D.GoOn);
    case Clears =>
      AllFinished(p);
      m := Some(D.Clear);
  }

  /** And every run of the program is one of the desktop, in which each session keeps to the protocol. */
  lemma {:induction false} RunIsRun(p: Program, run: seq<Act>) returns (moves: seq<D.Move>)
    requires Fits(p) && IsRun(p, run)
    ensures Fits(After(p, run))
    ensures D.IsRun(View(p), moves) && D.After(View(p), moves) == View(After(p, run))
    decreases |run|
  {
    moves := [];
    if run != [] {
      var m := StepIsMove(p, run[0]);
      moves := RunIsRun(Does(p, run[0]), run[1..]);
      if m.Some? {
        Projection.MoveFirst(View(p), m.value, moves);
        moves := [m.value] + moves;
      }
    }
  }

  // ---- the theorems ----

  lemma BlankView()
    ensures View(BLANK) == D.START && Fits(BLANK)
  {
    assert Cores([]) == [];
  }

  /** In every state of the whole program the desktop is in a state that Desktop speaks of, and every session with its
      client in one that the theorems about the protocol speak of. */
  lemma ProgramIsBoth(run: seq<Act>)
    requires IsRun(BLANK, run)
    ensures D.Reachable(View(After(BLANK, run))) && Fits(After(BLANK, run))
  {
    BlankView();
    var moves := RunIsRun(BLANK, run);
  }

  predicate Streams(p: Program, i: int) {
    0 <= i < |p.systems| && p.systems[i].server.core.state == Streaming
  }

  /** So over all interleavings of all threads of all machines: no handler of the window looks up a client that is not
      there, at most one session streams, and while no click is being handled it is the current one. */
  lemma WindowIsSafe(run: seq<Act>)
    requires IsRun(BLANK, run)
    ensures var p := After(BLANK, run);
            && !p.window.missing
            && (forall i, j :: Streams(p, i) && Streams(p, j) ==> i == j)
            && (p.window.pc.Ready? ==> forall i :: Streams(p, i) ==> p.window.current == Some(i + 1))
  {
    ProgramIsBoth(run);
    var p := After(BLANK, run);
    var moves :| D.IsRun(D.START, moves) && D.After(D.START, moves) == View(p);
    D.NoMissingLookup(moves);
    forall i, j | Streams(p, i) && Streams(p, j)
      ensures i == j && (p.window.pc.Ready? ==> p.window.current == Some(i + 1))
    {
      D.OneStreamer(moves, i, j);
    }
  }

  /** And once the window has handled all events, it shows exactly the clients whose sessions live, are terminated but
      still to dispatch their end, or had their names reported only after they had left. */
  lemma WindowShowsLive(run: seq<Act>, id: uint32)
    requires IsRun(BLANK, run)
    requires var p := After(BLANK, run); p.done == |p.events| && 1 <= id <= |p.systems|
    ensures var p := After(BLANK, run);
            var core := p.systems[id - 1].server.core;
            id in p.window.shown <==>
              core.state != Terminated || core.ending > 0 || D.RegisteredLate(p.events, id)
  {
    ProgramIsBoth(run);
    var p := After(BLANK, run);
    var moves :| D.IsRun(D.START, moves) && D.After(D.START, moves) == View(p);
    D.ClientsAreLive(moves, id);
    D.KeysAndButtons(moves);
  }

  // ---- the name a client is shown under ----

  ghost predicate InLog(log: seq<Event>, name: seq<byte>) {
    exists torn :: ClientRegistered(name, torn) in log
  }

  /** Every name queued was reported by its session. */
  ghost predicate NamesFromLogs(p: Program) {
    forall e <- p.events :: e.RegisteredAs? ==>
                              1 <= e.id <= |p.systems| && InLog(p.systems[e.id - 1].server.core.log, e.name)
  }

  lemma {:induction false} QueuedFrom(log: seq<Event>, id: uint32, e: D.GuiEvent)
    requires e in QueuedAll(log, id) && e.RegisteredAs?
    ensures e.id == id && InLog(log, e.name)
  {
    if e in Queued(log[0], id) {
      assert log[0] in log;
      assert ClientRegistered(e.name, log[0].torn) in log;
    } else {
      QueuedFrom(log[1..], id, e);
      var torn :| ClientRegistered(e.name, torn) in log[1..];
      assert ClientRegistered(e.name, torn) in log;
    }
  }

  lemma LogGrows(s: P.System, a: P.Action)
    requires P.Can(s, a)
    ensures s.server.core.log <= P.Does(s, a).server.core.log
  {
  }

  lemma InLonger(log: seq<Event>, longer: seq<Event>, name: seq<byte>)
    requires log <= longer && InLog(log, name)
    ensures InLog(longer, name)
  {
    var torn :| ClientRegistered(name, torn) in log;
    assert ClientRegistered(name, torn) in longer;
  }

  lemma OneKeepsNames(p: Program, k: nat, s: P.System, news: seq<D.GuiEvent>)
    requires NamesFromLogs(p) && k < |p.systems| < U32 && p.systems[k].server.core.log <= s.server.core.log
    requires forall e <- news :: e.RegisteredAs? ==> e.id == k + 1 && InLog(s.server.core.log, e.name)
    ensures NamesFromLogs(p.(systems := p.systems[k := s], events := p.events + news))
  {
    forall e | e in p.events + news && e.RegisteredAs?
      ensures 1 <= e.id <= |p.systems| && InLog(p.systems[k := s][e.id - 1].server.core.log, e.name)
    {
      if e in p.events && e.id - 1 == k {
        InLonger(p.systems[k].server.core.log, s.server.core.log, e.name);
      }
    }
  }

  lemma ByOneKeepsNames(p: Program, k: nat, a: P.Action)
    requires NamesFromLogs(p) && Can(p, ByOne(k, a))
    ensures NamesFromLogs(Does(p, ByOne(k, a)))
  {
    var s, t := p.systems[k], P.Does(p.systems[k], a);
    var news := QueuedAll(News(s.server.core, t.server.core), k + 1);
    LogGrows(s, a);
    forall e | e in news && e.RegisteredAs? ensures e.id == k + 1 && InLog(t.server.core.log, e.name) {
      QueuedFrom(News(s.server.core, t.server.core), k + 1, e);
      var torn :| ClientRegistered(e.name, torn) in News(s.server.core, t.server.core);
      assert ClientRegistered(e.name, torn) in t.server.core.log;
    }
    OneKeepsNames(p, k, t, news);
  }

  lemma SameLogsKeepNames(p: Program, q: Program)
    requires NamesFromLogs(p) && q.events == p.events && |q.systems| == |p.systems|
    requires forall k :: 0 <= k < |p.systems| ==> q.systems[k].server.core.log == p.systems[k].server.core.log
    ensures NamesFromLogs(q)
  {
  }

  lemma StepKeepsNames(p: Program, a: Act)
    requires NamesFromLogs(p) && Can(p, a)
    ensures NamesFromLogs(Does(p, a))
  {
    match a
    case Accepts(legacy) =>
      var id := |p.systems| + 1;
      assert QueuedAll([SessionStarted], id) == [D.Connected(id)] + QueuedAll([], id);
    case ByOne(k, b) => ByOneKeepsNames(p, k, b);
    case _ => SameLogsKeepNames(p, Does(p, a));
  }

  lemma {:induction false} RunKeepsNames(p: Program, run: seq<Act>)
    requires NamesFromLogs(p) && IsRun(p, run)
    ensures NamesFromLogs(After(p, run))
    decreases |run|
  {
    if run != [] {
      StepKeepsNames(p, run[0]);
      RunKeepsNames(Does(p, run[0]), run[1..]);
    }
  }

  /** The name a session reports is the one in its client's Hello, unless the session was terminated while that was
      coming in. */
  lemma ReportedIsSent(s: P.System, name: seq<byte>)
    requires Reached(s) && InLog(s.server.core.log, name)
    ensures (s.client.sent != [] && s.client.sent[0].msg == P.Messages.HelloMsg(name))
            || s.server.core.state == Terminated
  {
    var run :| P.IsRun(P.Init(s.legacy), run) && P.After(P.Init(s.legacy), run) == s;
    var torn :| ClientRegistered(name, torn) in s.server.core.log;
    if torn {
      ProtocolTheorems.TornAtMostOnce(s.legacy, run);
      TornCounts(s.server.core.log, ClientRegistered(name, torn));
    } else {
      ProtocolTheorems.RegisteredByName(s.legacy, run, ClientRegistered(name, torn));
    }
  }

  lemma {:induction false} TornCounts(log: seq<Event>, e: Event)
    requires e in log && ProtocolInvariant.Torn(e)
    ensures ProtocolInvariant.TornReports(log) > 0
  {
    if log[|log| - 1] != e {
      TornCounts(log[..|log| - 1], e);
    }
  }

  lemma ShownByReport(run: seq<Act>, i: nat)
    requires IsRun(BLANK, run)
    requires var p := After(BLANK, run);
             && i < p.done <= |p.events| && p.events[i].RegisteredAs?
             && forall j :: i < j < p.done ==> p.events[j].id != p.events[i].id
    ensures var p, e := After(BLANK, run), After(BLANK, run).events[i];
            e.id in p.window.clients && p.window.clients[e.id].username == e.name
  {
    ProgramIsBoth(run);
    var moves :| D.IsRun(D.START, moves) && D.After(D.START, moves) == View(After(BLANK, run));
    D.ShownUnder(moves, i);
  }

  /** So a client whose last event handled is that its name was reported is shown under that name, which is the one in
      its own Hello, unless its session has been terminated. */
  lemma ShownByOwnName(run: seq<Act>, i: nat)
    requires IsRun(BLANK, run)
    requires var p := After(BLANK, run);
             && i < p.done <= |p.events| && p.events[i].RegisteredAs?
             && forall j :: i < j < p.done ==> p.events[j].id != p.events[i].id
    ensures var p, e := After(BLANK, run), After(BLANK, run).events[i];
            && e.id in p.window.clients && p.window.clients[e.id].username == e.name && 1 <= e.id <= |p.systems|
            && var s := p.systems[e.id - 1];
               (s.client.sent != [] && s.client.sent[0].msg == P.Messages.HelloMsg(e.name))
               || s.server.core.state == Terminated
  {
    ShownByReport(run, i);
    RunKeepsNames(BLANK, run);
    ProgramIsBoth(run);
    var p := After(BLANK, run);
    assert p.events[i] in p.events;
    ReportedIsSent(p.systems[p.events[i].id - 1], p.events[i].name);
  }

  // ---- a client that stays for good ----

  lemma {:induction false} RunAppend(p: Program, run: seq<Act>, a: Act)
    requires IsRun(p, run) && Can(After(p, run), a)
    ensures IsRun(p, run + [a]) && After(p, run + [a]) == Does(After(p, run), a)
    decreases |run|
  {
    if run == [] {
      assert [a][1..] == [];
      assert IsRun(Does(p, a), []);
      assert [] + [a] == [a];
    } else {
      RunAppend(Does(p, run[0]), run[1..], a);
      assert (run + [a])[1..] == run[1..] + [a];
    }
  }

  lemma Go(run: seq<Act>, p: Program, a: Act) returns (longer: seq<Act>, q: Program)
    requires IsRun(BLANK, run) && After(BLANK, run) == p && Can(p, a)
    ensures IsRun(BLANK, longer) && After(BLANK, longer) == q && q == Does(p, a)
  {
    RunAppend(BLANK, run, a);
    return run + [a], Does(p, a);
  }

  /** A step of the one session there is, which reports nothing... */
  lemma GoQuietly(run: seq<Act>, p: Program, a: P.Action) returns (longer: seq<Act>, q: Program)
    requires IsRun(BLANK, run) && After(BLANK, run) == p && |p.systems| == 1
    requires P.Can(p.systems[0], a) && !Projection.ByWindow(a)
    requires P.Does(p.systems[0], a).server.core.log == p.systems[0].server.core.log
    ensures IsRun(BLANK, longer) && After(BLANK, longer) == q
    ensures q == p.(systems := [P.Does(p.systems[0], a)])
  {
    longer, q := Go(run, p, ByOne(0, a));
    assert News(p.systems[0].server.core, P.Does(p.systems[0], a).server.core) == [];
    assert p.systems[0 := P.Does(p.systems[0], a)] == [P.Does(p.systems[0], a)];
  }

  /** ... or one event. */
  lemma GoReporting(run: seq<Act>, p: Program, a: P.Action, e: Event) returns (longer: seq<Act>, q: Program)
    requires IsRun(BLANK, run) && After(BLANK, run) == p && |p.systems| == 1
    requires P.Can(p.systems[0], a) && !Projection.ByWindow(a)
    requires P.Does(p.systems[0], a).server.core.log == p.systems[0].server.core.log + [e]
    ensures IsRun(BLANK, longer) && After(BLANK, longer) == q
    ensures q == p.(systems := [P.Does(p.systems[0], a)], events := p.events + Queued(e, 1))
  {
    longer, q := Go(run, p, ByOne(0, a));
    NewsOf(p.systems[0].server.core.log, e, p.systems[0].server.core, P.Does(p.systems[0], a).server.core, 1);
    assert p.systems[0 := P.Does(p.systems[0], a)] == [P.Does(p.systems[0], a)];
  }

  /** The worker has read the client's name. */
  function NameRead(name: seq<byte>, core: Core): P.System {
    P.System(false, P.Server(core, P.Register(name, false), P.Uncut, false, 1, []),
                    P.Init(false).client.(pc := P.ReadOk, sent := [P.Sent(P.Messages.HelloMsg(name), 0)]))
  }

  lemma NameIsRead(name: seq<byte>)
    ensures var s := P.Does(P.Init(false), P.ByClient(P.SendsHello(name)));
            P.Can(s, P.ByWorker(P.Read)) && P.Does(s, P.ByWorker(P.Read)) == NameRead(name, NEW)
  {
    assert [] + [P.Sent(P.Messages.HelloMsg(name), 0)] == [P.Sent(P.Messages.HelloMsg(name), 0)];
  }

  lemma Connects(name: seq<byte>) returns (run: seq<Act>, p: Program)
    ensures IsRun(BLANK, run) && After(BLANK, run) == p
    ensures p == BLANK.(systems := [NameRead(name, NEW)], listed := 1, events := [D.Connected(1)])
  {
    run, p := Go([], BLANK, Accepts(false));
    assert QueuedAll([SessionStarted], 1) == [D.Connected(1)] + QueuedAll([], 1);
    run, p := Go(run, p, Lists);
    assert p.systems == [P.Init(false)] && p.events == [D.Connected(1)];
    NameIsRead(name);
    run, p := GoQuietly(run, p, P.ByClient(P.SendsHello(name)));
    run, p := GoQuietly(run, p, P.ByWorker(P.Read));
  }

  lemma LeavesAndRegisters(name: seq<byte>) returns (run: seq<Act>, p: Program)
    ensures IsRun(BLANK, run) && After(BLANK, run) == p
    ensures |p.systems| == 1 && p.systems[0].server.core.state == Terminated && p.systems[0].server.core.ending == 0
    ensures p.events == [D.Connected(1), D.Disconnected(1), D.RegisteredAs(1, name)]
    ensures p.window == BLANK.window && p.done == 0
  {
    run, p := Connects(name);
    run, p := GoQuietly(run, p, P.ByOther(P.TerminateIt(P.Uncut)));
    run, p := GoReporting(run, p, P.ByOther(P.DispatchIt), SessionEnded);
    run, p := GoReporting(run, p, P.ByWorker(P.Step), ClientRegistered(name, false));
  }

  /** A session is terminated after its worker has read the client's name and before it has reported it. With all events
      handled and the session over, the window goes on showing the client. */
  lemma StaleClientIsReached(name: seq<byte>)
    ensures exists run :: IsRun(BLANK, run)
                          && var p := After(BLANK, run);
                             && 1 in p.window.shown && p.done == |p.events|
                             && |p.systems| == 1
                             && p.systems[0].server.core.state == Terminated && p.systems[0].server.core.ending == 0
  {
    var run, p := LeavesAndRegisters(name);
    run, p := Go(run, p, Handles([]));
    run, p := Go(run, p, Handles([]));
    run, p := Go(run, p, Handles([]));
  }

  // ---- a client that is watched ----

  lemma Registers(name: seq<byte>) returns (run: seq<Act>, p: Program)
    ensures IsRun(BLANK, run) && After(BLANK, run) == p && |p.systems| == 1 && p.listed == 1 && !p.cleared
    ensures p.systems[0].server.core.state == Idle && p.done == |p.events|
    ensures p.window == BLANK.window.(clients := map[1 := D.ClientList.ClientInfo(1, name)], shown := {1})
  {
    run, p := Connects(name);
    run, p := GoReporting(run, p, P.ByWorker(P.Step), ClientRegistered(name, false));
    assert p.events == [D.Connected(1), D.RegisteredAs(1, name)];
    run, p := Go(run, p, Handles([]));
    run, p := Go(run, p, Handles([]));
  }

  /** Its session streams, it is the current client and shown under its name. */
  predicate Watched(p: Program, name: seq<byte>) {
    Streams(p, 0) && p.window.current == Some(1) && p.window.clients == map[1 := D.ClientList.ClientInfo(1, name)]
  }

  lemma Watches(name: seq<byte>) returns (run: seq<Act>, p: Program)
    ensures IsRun(BLANK, run) && After(BLANK, run) == p && |p.systems| == 1 && p.listed == 1 && !p.cleared
    ensures Watched(p, name) && p.window.pc.Ready? && p.window.shown == {1}
  {
    run, p := Registers(name);
    run, p := Go(run, p, Clicks(1));
    run, p := Go(run, p, GoesOn);
    run, p := Go(run, p, GoesOn);
    run, p := Go(run, p, GoesOn);
  }

  lemma Unwatches(p: Program)
    requires |p.systems| == 1 && p.listed == 1 && !p.cleared && Streams(p, 0)
    requires p.window.pc.Ready? && 1 in p.window.shown && p.window.current == Some(1) && 1 in p.window.clients
    ensures var more := [Clicks(1), GoesOn];
            && IsRun(p, more)
            && var q := After(p, more); !Streams(q, 0) && q.window.current == None
  {
    var more := [Clicks(1), GoesOn];
    assert more[1..] == [GoesOn] && more[1..][1..] == [];
    assert IsRun(Does(p, Clicks(1)), more[1..]);
    assert After(p, more) == Does(Does(p, Clicks(1)), GoesOn);
  }

  /** The button of a client that has registered starts its session, and the same button ends that again. */
  lemma WatchingIsReached(name: seq<byte>)
    ensures exists run ::
              && IsRun(BLANK, run) && Watched(After(BLANK, run), name)
              && var more := [Clicks(1), GoesOn];
                 && IsRun(After(BLANK, run), more)
                 && var q := After(After(BLANK, run), more); !Streams(q, 0) && q.window.current == None
  {
    var run, p := Watches(name);
    Unwatches(p);
  }
}
