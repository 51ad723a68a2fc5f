/** One session of the protocol, seen from the desktop: each of its steps is a move of the desktop or leaves the session
    as it is. So what Desktop proves over all its runs holds for sessions that follow the protocol. */
module Projection {
  import opened Bytes
  import opened Options
  import opened Sessions
  import P = Protocol
  import ProtocolInvariant
  import ProtocolProofs
  import D = Desktop

  /** Streaming is started and stopped by the window's clicks alone. */
  predicate ByWindow(a: P.Action) {
    a.ByOther? && (a.o.StartIt? || a.o.StopIt? || a.o.ToggleIt?)
  }

  function WorkerMove(v: P.Server, w: P.WorkerAct, id: uint32): Option<D.Move> {
    match w
    case ReadFails(closes) => if closes then Some(D.Loses(id)) else None
    case SendFails(closes) => if closes then Some(D.Loses(id)) else None
    case Step =>
      (match v.pc
       case Register(name, torn) => Some(D.Registers(id, name, torn))
       case Handle(m, torn) =>
         if P.IsFrame(m) then
           Some(D.Shows(id, FrameReceived(m, P.Round(v), if torn || v.taken == 0 then None else Some(v.taken - 1))))
         else None
       case Terminating(_) => Some(D.Ends(id))
       case Ending(_) => Some(D.Dispatches(id))
       case _ => None)
    case _ => None
  }

  function MoveOf(s: P.System, a: P.Action, id: uint32): Option<D.Move> {
    match a
    case ByWorker(w) => WorkerMove(s.server, w, id)
    case ByOther(TerminateIt(_)) => Some(D.Ends(id))
    case ByOther(DispatchIt) => Some(D.Dispatches(id))
    case _ => None
  }

  /** d goes over into e by a change of one session and what is queued with it. */
  predicate OnlySession(d: D.Desk, e: D.Desk, id: uint32, core: Core)
    requires D.Known(d, id)
  {
    e == d.(sessions := d.sessions[id - 1 := core], events := e.events) && d.events <= e.events
  }

  lemma LocalProjects(v: P.Server, toServer: seq<P.Sent>, d: D.Desk, id: uint32)
    requires ProtocolInvariant.ReportsFit(v) && P.WorkerCan(v, toServer, P.Step)
    requires D.Known(d, id) && D.CoreOf(d, id) == v.core
    ensures var m, core := WorkerMove(v, P.Step, id), P.LocalStep(v).core;
            if m.None? then core == v.core else D.Can(d, m.value) && OnlySession(d, D.Does(d, m.value), id, core)
  {
  }

  lemma WorkerProjects(v: P.Server, toServer: seq<P.Sent>, w: P.WorkerAct, d: D.Desk, id: uint32)
    requires ProtocolInvariant.ReportsFit(v) && P.WorkerCan(v, toServer, w)
    requires D.Known(d, id) && D.CoreOf(d, id) == v.core
    ensures var m, core := WorkerMove(v, w, id), P.WorkerDoes(v, toServer, w).core;
            if m.None? then core == v.core else D.Can(d, m.value) && OnlySession(d, D.Does(d, m.value), id, core)
  {
    if w.Step? {
      LocalProjects(v, toServer, d, id);
    }
  }

  /** Every step of the protocol that is not the window's is a move of the desktop on that one session, or none. */
  lemma StepProjects(s: P.System, a: P.Action, d: D.Desk, id: uint32)
    requires ProtocolInvariant.Inv(s) && P.Can(s, a) && !ByWindow(a)
    requires D.Known(d, id) && D.CoreOf(d, id) == s.server.core
    ensures var m, core := MoveOf(s, a, id), P.Does(s, a).server.core;
            if m.None? then core == s.server.core
            else D.Can(d, m.value) && OnlySession(d, D.Does(d, m.value), id, core)
  {
    match a
    case ByWorker(w) => WorkerProjects(s.server, s.client.sent, w, d, id);
    case _ =>
  }

  /** And the steps that are the window's are those of its click: the stop of the current stream... */
  lemma StopProjects(s: P.System, d: D.Desk, id: uint32)
    requires D.Known(d, id) && D.Listed(d, id) && D.CoreOf(d, id) == s.server.core
    requires d.window.pc.Stopping? && d.window.current == Some(id)
    ensures D.CoreOf(D.ClickGoesOn(d), id) == P.Does(s, P.ByOther(P.StopIt)).server.core
  {
  }

  /** ... and the start of a new one. */
  lemma StartProjects(s: P.System, d: D.Desk, id: uint32)
    requires D.Known(d, id) && D.Listed(d, id) && D.CoreOf(d, id) == s.server.core
    requires d.window.pc == D.Starting(id) && id in d.window.clients
    ensures D.CoreOf(D.ClickGoesOn(d), id) == P.Does(s, P.ByOther(P.StartIt)).server.core
  {
  }

  lemma MoveFirst(d: D.Desk, m: D.Move, rest: seq<D.Move>)
    requires D.Can(d, m) && D.IsRun(D.Does(d, m), rest)
    ensures D.IsRun(d, [m] + rest) && D.After(d, [m] + rest) == D.After(D.Does(d, m), rest)
  {
    assert ([m] + rest)[1..] == rest;
  }

  lemma OneSessionStill(d: D.Desk, e: D.Desk, f: D.Desk, id: uint32, core: Core, last: Core)
    requires D.Known(d, id) && OnlySession(d, e, id, core) && OnlySession(e, f, id, last)
    ensures OnlySession(d, f, id, last)
  {
  }

  /** Between two steps of the window, a run of the protocol is a run of the desktop that ends with the same session. */
  lemma {:induction false} RunProjects(s: P.System, run: seq<P.Action>, d: D.Desk, id: uint32)
    returns (moves: seq<D.Move>)
    requires ProtocolInvariant.Inv(s) && P.IsRun(s, run) && forall a <- run :: !ByWindow(a)
    requires D.Known(d, id) && D.CoreOf(d, id) == s.server.core
    ensures D.IsRun(d, moves) && OnlySession(d, D.After(d, moves), id, P.After(s, run).server.core)
    decreases |run|
  {
    moves := [];
    if run != [] {
      var m, next := MoveOf(s, run[0], id), P.Does(s, run[0]);
      assert !ByWindow(run[0]);
      StepProjects(s, run[0], d, id);
      ProtocolProofs.DoesKeepsInv(s, run[0]);
      if m.None? {
        moves := RunProjects(next, run[1..], d, id);
      } else {
        var rest := RunProjects(next, run[1..], D.Does(d, m.value), id);
        moves := [m.value] + rest;
        MoveFirst(d, m.value, rest);
        OneSessionStill(d, D.Does(d, m.value), D.After(d, moves), id, next.server.core, P.After(s, run).server.core);
      }
    }
  }
}
