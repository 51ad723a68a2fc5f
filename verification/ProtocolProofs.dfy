/** Every step of the session protocol keeps the invariant. */
module ProtocolProofs {
  import opened Options
  import opened Messages
  import opened Sessions
  import opened Protocol
  import opened ProtocolInvariant

  lemma InitHolds(legacy: bool)
    ensures Inv(Init(legacy))
  {
    assert Ends(NEW.log) == 0;
    assert NEW.log[..0] == [];
  }

  // ---- the worker's local steps ----

  /** The steps that leave the session as it is and report nothing. */
  predicate Quiet(v: Server) {
    v.pc.CheckTerminated? || v.pc.Waiting? || v.pc.Drained? || v.pc.CheckStreaming?
    || (v.pc.Handle? && !IsFrame(v.pc.next)) || (v.pc.Terminating? && v.core.state == Terminated)
  }

  /** What the worker is about to report. */
  function Reporting(v: Server): Event
    requires v.pc.Register? || v.pc.Handle?
  {
    if v.pc.Register? then ClientRegistered(v.pc.name, v.pc.torn)
    else FrameReceived(v.pc.next, Round(v), if v.pc.torn || v.taken == 0 then None else Some(v.taken - 1))
  }

  predicate Reports(v: Server) {
    v.pc.Register? || (v.pc.Handle? && IsFrame(v.pc.next))
  }

  predicate Closes(v: Server) {
    (v.pc.Terminating? && v.core.state != Terminated) || (v.pc.Ending? && v.core.ending > 0)
  }

  lemma QuietKeepsCore(v: Server)
    requires CoreFits(v) && Quiet(v)
    ensures CoreFits(LocalStep(v)) && LocalStep(v).core == v.core
  {
  }

  lemma ReportKeepsCore(v: Server)
    requires CoreFits(v) && Reports(v)
    ensures CoreFits(LocalStep(v))
  {
    ReportStep(v);
    DoKeepsInv(v.core, DoReport(Reporting(v)));
  }

  lemma CloseKeepsCore(v: Server)
    requires CoreFits(v) && Closes(v)
    ensures CoreFits(LocalStep(v))
  {
    if v.pc.Ending? {
      DoKeepsInv(v.core, DoDispatchEnded);
    }
  }

  lemma QuietKeepsWorker(v: Server, toServer: seq<Sent>)
    requires CoreFits(v) && WorkerFits(v, toServer) && Quiet(v)
    ensures WorkerFits(LocalStep(v), toServer)
  {
  }

  lemma ReportKeepsWorker(v: Server, toServer: seq<Sent>)
    requires WorkerFits(v, toServer) && Reports(v)
    ensures WorkerFits(LocalStep(v), toServer)
  {
  }

  lemma CloseKeepsWorker(v: Server, toServer: seq<Sent>)
    requires CoreFits(v) && Closes(v)
    ensures WorkerFits(LocalStep(v), toServer)
  {
    CloseKeepsCore(v);
  }

  lemma QuietKeepsReports(v: Server)
    requires CoreFits(v) && ReportsFit(v) && Quiet(v)
    ensures ReportsFit(LocalStep(v))
  {
    EndsCounts(v.core.log);
  }

  lemma ReportKeepsReports(v: Server)
    requires ReportsFit(v) && Reports(v)
    ensures ReportsFit(LocalStep(v))
  {
    LateAppend(v.core.log, Reporting(v));
    InOrderAppend(v.core.log, Reporting(v));
  }

  lemma CloseKeepsReports(v: Server)
    requires CoreFits(v) && ReportsFit(v) && Closes(v)
    ensures ReportsFit(LocalStep(v))
  {
    EndsCounts(v.core.log);
    LateAppend(v.core.log, SessionEnded);
    InOrderAppend(v.core.log, SessionEnded);
  }

  lemma StepKeepsNames(v: Server, toServer: seq<Sent>)
    requires NamesFit(v, toServer) && WorkerCan(v, toServer, Step)
    ensures NamesFit(LocalStep(v), toServer)
  {
  }

  /** Adding an event that is no whole frame leaves the frames dispatched alone. */
  lemma QuietEvent(log: seq<Event>, e: Event)
    requires !(e.FrameReceived? && e.place.Some?)
    ensures forall k: nat :: FramesDispatched(log + [e], k) == FramesDispatched(log, k)
  {
    forall k: nat ensures FramesDispatched(log + [e], k) == FramesDispatched(log, k) {
      FramesDispatchedAppend(log, e, k);
    }
  }

  lemma QuietKeepsDispatch(legacy: bool, v: Server, toServer: seq<Sent>)
    requires v.taken <= |toServer| && CoreFits(v) && DispatchFits(legacy, v, toServer) && Quiet(v) && !v.pc.Handle?
    ensures DispatchFits(legacy, LocalStep(v), toServer)
  {
  }

  lemma RegisterKeepsDispatch(legacy: bool, v: Server, toServer: seq<Sent>)
    requires v.taken <= |toServer| && v.pc.Register?
    requires DispatchLags(v.core.log, toServer[..v.taken]) && DispatchFits(legacy, v, toServer)
    ensures DispatchLags(LocalStep(v).core.log, toServer[..v.taken]) && DispatchFits(legacy, LocalStep(v), toServer)
  {
    QuietEvent(v.core.log, Reporting(v));
  }

  lemma CloseKeepsDispatch(legacy: bool, v: Server, toServer: seq<Sent>)
    requires v.taken <= |toServer| && CoreFits(v) && Closes(v)
    requires DispatchLags(v.core.log, toServer[..v.taken])
    ensures DispatchLags(LocalStep(v).core.log, toServer[..v.taken]) && DispatchFits(legacy, LocalStep(v), toServer)
  {
    QuietEvent(v.core.log, SessionEnded);
    CloseKeepsCore(v);
  }

  lemma WholeFrame(log: seq<Event>, toServer: seq<Sent>, taken: nat, g: nat)
    requires 0 < taken <= |toServer| && IsFrame(toServer[taken - 1].msg) && toServer[taken - 1].round == g
    requires Caught(log, toServer[..taken - 1], g) && DispatchLags(log, toServer[..taken])
    ensures var longer := log + [FrameReceived(toServer[taken - 1].msg, g, Some(taken - 1))];
            DispatchLags(longer, toServer[..taken]) && Caught(longer, toServer[..taken], g)
  {
    var e := FrameReceived(toServer[taken - 1].msg, g, Some(taken - 1));
    forall k: nat ensures FramesDispatched(log + [e], k) <= FramesSent(toServer[..taken], k) {
      FramesDispatchedAppend(log, e, k);
      FramesSentStep(toServer, taken - 1, k);
    }
    FramesDispatchedAppend(log, e, g);
    FramesSentStep(toServer, taken - 1, g);
  }

  lemma HandleKeepsDispatch(legacy: bool, v: Server, toServer: seq<Sent>)
    requires v.taken <= |toServer| && WorkerFits(v, toServer)
    requires DispatchLags(v.core.log, toServer[..v.taken]) && DispatchFits(legacy, v, toServer)
    requires v.pc.Handle?
    ensures DispatchLags(LocalStep(v).core.log, toServer[..v.taken]) && DispatchFits(legacy, LocalStep(v), toServer)
  {
    var log, m := v.core.log, v.pc.next;
    if !IsFrame(m) {
    } else if v.pc.torn || v.taken == 0 {
      QuietEvent(log, FrameReceived(m, Round(v), None));
    } else {
      WholeFrame(log, toServer, v.taken, Round(v));
    }
  }

  // ---- the worker's reads and writes ----

  /** The next message for the worker belongs to the round of the last one, or opens the next. */
  lemma NextForWorker(v: Server, c: Client)
    requires LogsFit(v, c) && v.taken < |c.sent|
    ensures EntryFits(c.sent, v.taken)
    ensures c.sent[v.taken].round <= Round(v)
    ensures var e := c.sent[v.taken];
            e.msg.StreamParamsMsg? ==>
              1 <= e.round <= |Offers(c.sent)| && Offers(c.sent)[e.round - 1] == e.msg.params
  {
    RoundsGrow(c.sent, v.taken, |c.sent| - 1);
    OffersByRound(c.sent);
  }

  /** What the worker reads while it takes frames is a frame of its round; what it drains, if not the new offer, is left
      over from the round before. */
  lemma NextIsOfRound(v: Server, c: Client)
    requires LogsFit(v, c) && WorkerFits(v, c.sent) && WorkerCan(v, c.sent, Read)
    ensures v.pc.ReadFrame? ==> IsFrame(c.sent[v.taken].msg) && c.sent[v.taken].round == Round(v)
    ensures v.pc.Drain? && !c.sent[v.taken].msg.StreamParamsMsg? ==>
              IsFrame(c.sent[v.taken].msg) && c.sent[v.taken].round == Round(v) - 1
  {
    NextForWorker(v, c);
  }

  lemma ReadKeepsWorker(v: Server, c: Client)
    requires CoreFits(v) && LogsFit(v, c) && WorkerFits(v, c.sent) && WorkerCan(v, c.sent, Read)
    ensures var w := WorkerDoes(v, c.sent, Read); CoreFits(w) && WorkerFits(w, c.sent)
  {
    NextForWorker(v, c);
  }

  lemma ReadLags(log: seq<Event>, toServer: seq<Sent>, taken: nat)
    requires taken < |toServer| && DispatchLags(log, toServer[..taken])
    ensures DispatchLags(log, toServer[..taken + 1])
  {
    forall k: nat ensures FramesDispatched(log, k) <= FramesSent(toServer[..taken + 1], k) {
      FramesSentStep(toServer, taken, k);
    }
  }

  lemma DrainKeepsDispatch(legacy: bool, v: Server, toServer: seq<Sent>)
    requires WorkerCan(v, toServer, Read) && v.pc.Drain? && DispatchFits(legacy, v, toServer)
    requires IsFrame(toServer[v.taken].msg) ==> toServer[v.taken].round != Round(v)
    requires !legacy ==> !toServer[v.taken].msg.StreamFrameMsg?
    ensures DispatchFits(legacy, WorkerDoes(v, toServer, Read), toServer)
  {
    FramesSentStep(toServer, v.taken, Round(v));
  }

  lemma ReadFrameKeepsDispatch(legacy: bool, v: Server, toServer: seq<Sent>)
    requires WorkerCan(v, toServer, Read) && v.pc.ReadFrame? && DispatchFits(legacy, v, toServer)
    requires IsFrame(toServer[v.taken].msg) && toServer[v.taken].round == Round(v)
    ensures DispatchFits(legacy, WorkerDoes(v, toServer, Read), toServer)
  {
  }

  lemma ReadKeepsDispatch(legacy: bool, v: Server, c: Client)
    requires CoreFits(v) && LogsFit(v, c) && WorkerFits(v, c.sent) && WorkerCan(v, c.sent, Read)
    requires FramesFit(legacy, c.sent, c.captures)
    requires DispatchLags(v.core.log, c.sent[..v.taken]) && DispatchFits(legacy, v, c.sent)
    ensures var w := WorkerDoes(v, c.sent, Read);
            DispatchLags(w.core.log, c.sent[..w.taken]) && DispatchFits(legacy, w, c.sent)
  {
    ReadLags(v.core.log, c.sent, v.taken);
    NextIsOfRound(v, c);
    assert IsFrame(c.sent[v.taken].msg) ==> FrameFits(legacy, c.sent[v.taken], c.captures);
    ReadFits(legacy, v, c.sent);
  }

  lemma ReadFits(legacy: bool, v: Server, toServer: seq<Sent>)
    requires WorkerCan(v, toServer, Read) && DispatchFits(legacy, v, toServer)
    requires !legacy ==> !toServer[v.taken].msg.StreamFrameMsg?
    requires v.pc.Drain? && IsFrame(toServer[v.taken].msg) ==> toServer[v.taken].round != Round(v)
    requires v.pc.ReadFrame? ==> IsFrame(toServer[v.taken].msg) && toServer[v.taken].round == Round(v)
    ensures DispatchFits(legacy, WorkerDoes(v, toServer, Read), toServer)
  {
    if v.pc.Drain? {
      DrainKeepsDispatch(legacy, v, toServer);
    } else if v.pc.ReadFrame? {
      ReadFrameKeepsDispatch(legacy, v, toServer);
    }
  }

  lemma ReadKeepsReports(v: Server, c: Client)
    requires CoreFits(v) && LogsFit(v, c) && WorkerFits(v, c.sent) && WorkerCan(v, c.sent, Read)
    requires ReportsFit(v) && NamesFit(v, c.sent)
    ensures var w := WorkerDoes(v, c.sent, Read); ReportsFit(w) && NamesFit(w, c.sent)
  {
  }

  lemma ReadTornKeeps(legacy: bool, v: Server, toServer: seq<Sent>)
    requires WorkerCan(v, toServer, ReadTorn) && v.taken <= |toServer|
    requires CoreFits(v) && DispatchFits(legacy, v, toServer) && ReportsFit(v) && NamesFit(v, toServer)
    ensures var w := WorkerDoes(v, toServer, ReadTorn);
            && CoreFits(w) && WorkerFits(w, toServer) && DispatchFits(legacy, w, toServer)
            && ReportsFit(w) && NamesFit(w, toServer)
  {
  }

  lemma ReadFailsKeeps(legacy: bool, v: Server, toServer: seq<Sent>, closes: bool)
    requires WorkerCan(v, toServer, ReadFails(closes)) && v.taken <= |toServer|
    requires CoreFits(v) && WorkerFits(v, toServer) && DispatchFits(legacy, v, toServer)
    requires ReportsFit(v) && NamesFit(v, toServer)
    ensures var w := WorkerDoes(v, toServer, ReadFails(closes));
            && CoreFits(w) && WorkerFits(w, toServer) && DispatchFits(legacy, w, toServer)
            && ReportsFit(w) && NamesFit(w, toServer)
  {
  }

  lemma SendLostKeeps(legacy: bool, v: Server, toServer: seq<Sent>)
    requires WorkerCan(v, toServer, SendLost) && v.taken <= |toServer|
    requires CoreFits(v) && DispatchFits(legacy, v, toServer) && ReportsFit(v) && NamesFit(v, toServer)
    ensures var w := WorkerDoes(v, toServer, SendLost);
            && CoreFits(w) && WorkerFits(w, toServer) && DispatchFits(legacy, w, toServer)
            && ReportsFit(w) && NamesFit(w, toServer)
  {
  }

  lemma SendFailsKeeps(legacy: bool, v: Server, toServer: seq<Sent>, closes: bool)
    requires WorkerCan(v, toServer, SendFails(closes)) && v.taken <= |toServer|
    requires CoreFits(v) && ReportsFit(v) && NamesFit(v, toServer)
    ensures var w := WorkerDoes(v, toServer, SendFails(closes));
            && CoreFits(w) && WorkerFits(w, toServer) && DispatchFits(legacy, w, toServer)
            && ReportsFit(w) && NamesFit(w, toServer)
  {
  }

  lemma SendKeepsWorker(v: Server, c: Client)
    requires CoreFits(v) && LogsFit(v, c) && WorkerFits(v, c.sent) && WorkerCan(v, c.sent, Send)
    ensures var w := WorkerDoes(v, c.sent, Send); CoreFits(w) && LogsFit(w, c) && WorkerFits(w, c.sent)
  {
    if v.pc.SendOk? {
      assert EntryFits(c.sent, 0);
    }
  }

  lemma SendGetParamsKeepsDispatch(legacy: bool, v: Server, c: Client)
    requires LogsFit(v, c) && WorkerFits(v, c.sent) && WorkerCan(v, c.sent, Send) && v.pc.SendGetParams?
    requires DispatchFits(legacy, v, c.sent)
    ensures DispatchFits(legacy, WorkerDoes(v, c.sent, Send), c.sent)
  {
    NoFramesYet(c.sent, v.taken, Round(v) + 1);
  }

  lemma SendKeepsDispatch(legacy: bool, v: Server, c: Client)
    requires LogsFit(v, c) && WorkerFits(v, c.sent) && WorkerCan(v, c.sent, Send) && !v.pc.SendGetParams?
    requires DispatchLags(v.core.log, c.sent[..v.taken]) && DispatchFits(legacy, v, c.sent)
    ensures DispatchFits(legacy, WorkerDoes(v, c.sent, Send), c.sent)
  {
    if v.pc.SendInitialize? {
      assert FramesDispatched(v.core.log, Round(v)) <= FramesSent(c.sent[..v.taken], Round(v));
    }
  }

  lemma SendKeepsServer(legacy: bool, v: Server, c: Client)
    requires CoreFits(v) && LogsFit(v, c) && WorkerFits(v, c.sent) && WorkerCan(v, c.sent, Send)
    requires DispatchLags(v.core.log, c.sent[..v.taken]) && DispatchFits(legacy, v, c.sent)
    ensures var w := WorkerDoes(v, c.sent, Send);
            CoreFits(w) && LogsFit(w, c) && WorkerFits(w, c.sent) && DispatchFits(legacy, w, c.sent)
  {
    SendKeepsWorker(v, c);
    if v.pc.SendGetParams? {
      SendGetParamsKeepsDispatch(legacy, v, c);
    } else {
      SendKeepsDispatch(legacy, v, c);
    }
  }

  lemma SendKeepsReports(v: Server, toServer: seq<Sent>)
    requires WorkerCan(v, toServer, Send) && ReportsFit(v) && NamesFit(v, toServer)
    ensures var w := WorkerDoes(v, toServer, Send); ReportsFit(w) && NamesFit(w, toServer)
  {
  }

  lemma SendKeepsRounds(v: Server, c: Client)
    requires WorkerFits(v, c.sent) && WorkerCan(v, c.sent, Send)
    requires RoundsAgree(v.sent, c.sent) && CapturesAgree(v.sent, c.captures)
    ensures var w := WorkerDoes(v, c.sent, Send); RoundsAgree(w.sent, c.sent) && CapturesAgree(w.sent, c.captures)
  {
  }

  lemma WorkerKeepsTorn(v: Server, toServer: seq<Sent>, a: WorkerAct)
    requires CoreFits(v) && WorkerFits(v, toServer) && TornFits(v) && WorkerCan(v, toServer, a) && a != Step
    ensures TornFits(WorkerDoes(v, toServer, a))
  {
  }

  lemma ReportIsTorn(v: Server)
    requires TornFits(v) && Reports(v)
    ensures Torn(Reporting(v)) == HoldsTorn(v.pc)
  {
  }

  lemma ReportStep(v: Server)
    requires Reports(v)
    ensures var w := LocalStep(v);
            w.core == Report(v, Reporting(v)) && w.cut == v.cut && !HoldsTorn(w.pc) && !w.pc.Handle?
  {
  }

  lemma ReportKeepsTorn(v: Server)
    requires TornFits(v) && Reports(v)
    ensures TornFits(LocalStep(v))
  {
    ReportIsTorn(v);
    ReportStep(v);
    TornAppend(v.core.log, Reporting(v));
  }

  lemma CloseKeepsTorn(v: Server)
    requires CoreFits(v) && TornFits(v) && Closes(v)
    ensures TornFits(LocalStep(v))
  {
    TornAppend(v.core.log, SessionEnded);
  }

  lemma QuietKeepsTorn(v: Server)
    requires CoreFits(v) && TornFits(v) && Quiet(v)
    ensures TornFits(LocalStep(v))
  {
    QuietKeepsCore(v);
  }

  // ---- the other threads of the server ----

  function AsOp(o: OtherAct): Op {
    match o
    case StartIt => DoStart
    case StopIt => DoStop
    case ToggleIt => DoToggle
    case TerminateIt(_) => DoTerminate
    case DispatchIt => DoDispatchEnded
  }

  /** What the other threads do to the session is one of its operations. */
  lemma OtherIsOp(v: Server, coming: Option<Message>, o: OtherAct)
    requires OtherCan(v, coming, o)
    ensures Possible(v.core, AsOp(o)) && OtherDoes(v, coming, o).core == Do(v.core, AsOp(o))
  {
  }

  lemma OtherKeepsCore(v: Server, coming: Option<Message>, o: OtherAct)
    requires CoreFits(v) && OtherCan(v, coming, o)
    ensures CoreFits(OtherDoes(v, coming, o))
  {
    OtherIsOp(v, coming, o);
    DoKeepsInv(v.core, AsOp(o));
  }

  lemma OtherKeepsWorker(v: Server, toServer: seq<Sent>, coming: Option<Message>, o: OtherAct)
    requires WorkerFits(v, toServer) && OtherCan(v, coming, o)
    ensures WorkerFits(OtherDoes(v, coming, o), toServer)
  {
  }

  lemma SameLogKeepsDispatch(legacy: bool, v: Server, w: Server, toServer: seq<Sent>)
    requires v.taken <= |toServer| && DispatchFits(legacy, v, toServer)
    requires w.pc == v.pc && w.core.log == v.core.log && w.taken == v.taken && w.sent == v.sent
    requires w.core.open ==> v.core.open
    ensures DispatchFits(legacy, w, toServer)
  {
  }

  lemma OtherKeepsDispatch(legacy: bool, v: Server, toServer: seq<Sent>, coming: Option<Message>, o: OtherAct)
    requires v.taken <= |toServer| && OtherCan(v, coming, o) && !o.DispatchIt?
    requires DispatchLags(v.core.log, toServer[..v.taken]) && DispatchFits(legacy, v, toServer)
    ensures var w := OtherDoes(v, coming, o);
            DispatchLags(w.core.log, toServer[..w.taken]) && DispatchFits(legacy, w, toServer)
  {
    SameLogKeepsDispatch(legacy, v, OtherDoes(v, coming, o), toServer);
  }

  lemma EndKeepsDispatch(legacy: bool, v: Server, toServer: seq<Sent>, coming: Option<Message>)
    requires v.taken <= |toServer| && OtherCan(v, coming, DispatchIt)
    requires DispatchLags(v.core.log, toServer[..v.taken]) && DispatchFits(legacy, v, toServer)
    ensures var w := OtherDoes(v, coming, DispatchIt);
            DispatchLags(w.core.log, toServer[..w.taken]) && DispatchFits(legacy, w, toServer)
  {
    QuietEvent(v.core.log, SessionEnded);
  }

  lemma OtherKeepsReports(v: Server, toServer: seq<Sent>, coming: Option<Message>, o: OtherAct)
    requires CoreFits(v) && ReportsFit(v) && NamesFit(v, toServer) && OtherCan(v, coming, o)
    ensures ReportsFit(OtherDoes(v, coming, o)) && NamesFit(OtherDoes(v, coming, o), toServer)
  {
    EndsCounts(v.core.log);
    if o.DispatchIt? {
      LateAppend(v.core.log, SessionEnded);
      InOrderAppend(v.core.log, SessionEnded);
    }
  }

  lemma OtherKeepsTorn(v: Server, coming: Option<Message>, o: OtherAct)
    requires CoreFits(v) && TornFits(v) && OtherCan(v, coming, o)
    ensures TornFits(OtherDoes(v, coming, o))
  {
    TornAppend(v.core.log, SessionEnded);
  }

  // ---- the client's threads ----

  lemma GrowthKeepsWorker(v: Server, toServer: seq<Sent>, e: Sent)
    requires v.taken <= |toServer| && WorkerFits(v, toServer) && NamesFit(v, toServer)
    ensures WorkerFits(v, toServer + [e]) && NamesFit(v, toServer + [e])
  {
    OffersAppend(toServer, e);
  }

  lemma GrowthKeepsDispatch(legacy: bool, v: Server, toServer: seq<Sent>, e: Sent)
    requires v.taken <= |toServer|
    requires DispatchLags(v.core.log, toServer[..v.taken]) && DispatchFits(legacy, v, toServer)
    ensures DispatchLags(v.core.log, (toServer + [e])[..v.taken]) && DispatchFits(legacy, v, toServer + [e])
  {
    TakeOfAppend(toServer, e, v.taken);
    if v.taken > 0 {
      TakeOfAppend(toServer, e, v.taken - 1);
    }
  }

  lemma GrowthKeepsRounds(toClient: seq<Message>, toServer: seq<Sent>, e: Sent)
    requires RoundsAgree(toClient, toServer)
    ensures RoundsAgree(toClient, toServer + [e])
  {
    OffersAppend(toServer, e);
  }

  lemma WritingKeepsLogs(v: Server, c: Client, coming: Option<Message>, a: ClientAct)
    requires LogsFit(v, c) && ClientFits(c) && ClientCan(c, v.sent, coming, a) && (a.SendsHello? || a.SendsParams?)
    ensures LogsFit(v, ClientDoes(c, v.sent, coming, a))
  {
    match a
    case SendsHello(name) => ClientLogAppend(c.sent, Sent(HelloMsg(name), 0));
    case SendsParams(p) => ClientLogAppend(c.sent, Sent(StreamParamsMsg(p), LastRound(c.sent) + 1));
  }

  lemma ReadingKeepsLogs(v: Server, c: Client, coming: Option<Message>, a: ClientAct)
    requires LogsFit(v, c) && ClientCan(c, v.sent, coming, a) && !a.SendsHello? && !a.SendsParams?
    ensures LogsFit(v, ClientDoes(c, v.sent, coming, a))
  {
  }

  lemma ClientKeepsLogs(v: Server, c: Client, coming: Option<Message>, a: ClientAct)
    requires LogsFit(v, c) && ClientFits(c) && ClientCan(c, v.sent, coming, a)
    ensures LogsFit(v, ClientDoes(c, v.sent, coming, a))
  {
    if a.SendsHello? || a.SendsParams? {
      WritingKeepsLogs(v, c, coming, a);
    } else {
      ReadingKeepsLogs(v, c, coming, a);
    }
  }

  lemma ClientWritesFit(v: Server, c: Client, coming: Option<Message>, a: ClientAct)
    requires ClientFits(c) && ClientCan(c, v.sent, coming, a) && (a.SendsHello? || a.SendsParams?)
    ensures ClientFits(ClientDoes(c, v.sent, coming, a))
  {
  }

  /** Steps after which the socket is closed. */
  lemma ClientClosedFit(c: Client, toClient: seq<Message>, coming: Option<Message>, a: ClientAct)
    requires ClientFits(c) && ClientCan(c, toClient, coming, a)
    requires a.WriteLost? || a.ReadsTorn? || a.WindowCloses? || a.Dies?
    ensures ClientFits(ClientDoes(c, toClient, coming, a))
  {
  }

  lemma ClientFailsFit(c: Client, toClient: seq<Message>, coming: Option<Message>, a: ClientAct)
    requires ClientFits(c) && ClientCan(c, toClient, coming, a)
    requires a.BeginsWriting? || a.WriteFails? || a.ReadFailing? || a.Joins?
    ensures ClientFits(ClientDoes(c, toClient, coming, a))
  {
  }

  lemma ClientReadsFit(c: Client, m: Message)
    requires ClientFits(c) && ClientReading(c.pc) && c.open && c.cIn && TagFits(m, c.taken)
    ensures ClientFits(ClientGets(c.(taken := c.taken + 1), m, false))
  {
  }

  lemma ClientKeepsFit(v: Server, c: Client, coming: Option<Message>, a: ClientAct)
    requires ServerLog(v.sent) && ClientFits(c) && ClientCan(c, v.sent, coming, a)
    ensures ClientFits(ClientDoes(c, v.sent, coming, a))
  {
    if a.Reads? {
      ClientReadsFit(c, v.sent[c.taken]);
    } else if a.SendsHello? || a.SendsParams? {
      ClientWritesFit(v, c, coming, a);
    } else if a.WriteLost? || a.ReadsTorn? || a.WindowCloses? || a.Dies? {
      ClientClosedFit(c, v.sent, coming, a);
    } else {
      ClientFailsFit(c, v.sent, coming, a);
    }
  }

  lemma CapturedWhole(v: Server, c: Client, coming: Option<Message>)
    requires ServerLog(v.sent) && ClientFits(c) && ClientCan(c, v.sent, coming, Reads)
    requires CapturesAgree(v.sent, c.captures) && TornCaptureFits(c)
    ensures var d := ClientDoes(c, v.sent, coming, Reads); CapturesAgree(v.sent, d.captures) && TornCaptureFits(d)
  {
    if c.pc.ReadInitialize? {
      assert TagFits(v.sent[c.taken], c.taken);
      assert c.taken == 3 * |c.captures| + 2;
    }
  }

  lemma ClientKeepsCaptures(v: Server, c: Client, coming: Option<Message>, a: ClientAct)
    requires ServerLog(v.sent) && ClientFits(c) && ClientCan(c, v.sent, coming, a)
    requires CapturesAgree(v.sent, c.captures) && TornCaptureFits(c)
    ensures var d := ClientDoes(c, v.sent, coming, a); CapturesAgree(v.sent, d.captures) && TornCaptureFits(d)
  {
    if a.Reads? {
      CapturedWhole(v, c, coming);
    }
  }

  lemma FramesFitGrown(legacy: bool, sent: seq<Sent>, captures: seq<Capture>, more: seq<Sent>, added: seq<Capture>)
    requires FramesFit(legacy, sent, captures) && forall e <- more :: !IsFrame(e.msg)
    ensures FramesFit(legacy, sent + more, captures + added)
  {
    forall i | 0 <= i < |sent + more| && IsFrame((sent + more)[i].msg)
      ensures FrameFits(legacy, (sent + more)[i], captures + added)
    {
      assert i < |sent|;
      assert FrameFits(legacy, sent[i], captures);
    }
  }

  /** What the main thread adds to what it has sent, and to its captures. */
  lemma ClientAdds(c: Client, toClient: seq<Message>, coming: Option<Message>, a: ClientAct)
    returns (more: seq<Sent>, added: seq<Capture>)
    requires ClientCan(c, toClient, coming, a)
    ensures var d := ClientDoes(c, toClient, coming, a); d.sent == c.sent + more && d.captures == c.captures + added
    ensures |more| <= 1 && forall e <- more :: !IsFrame(e.msg)
  {
    var d := ClientDoes(c, toClient, coming, a);
    more := if |d.sent| > |c.sent| then [d.sent[|c.sent|]] else [];
    added := if |d.captures| > |c.captures| then [d.captures[|c.captures|]] else [];
  }

  lemma ClientKeepsFrames(legacy: bool, v: Server, c: Client, coming: Option<Message>, a: ClientAct)
    requires ClientCan(c, v.sent, coming, a) && FramesFit(legacy, c.sent, c.captures)
    ensures var d := ClientDoes(c, v.sent, coming, a);
            FramesFit(legacy, d.sent, d.captures) && (d.sent == c.sent || exists e :: d.sent == c.sent + [e])
  {
    var more, added := ClientAdds(c, v.sent, coming, a);
    FramesFitGrown(legacy, c.sent, c.captures, more, added);
    if more != [] {
      assert more == [more[0]];
    }
  }

  lemma ClientKeepsClient(legacy: bool, v: Server, c: Client, coming: Option<Message>, a: ClientAct)
    requires LogsFit(v, c) && ClientFits(c) && ClientCan(c, v.sent, coming, a)
    requires CapturesAgree(v.sent, c.captures) && TornCaptureFits(c) && FramesFit(legacy, c.sent, c.captures)
    ensures var d := ClientDoes(c, v.sent, coming, a);
            LogsFit(v, d) && ClientFits(d) && CapturesAgree(v.sent, d.captures) && TornCaptureFits(d)
            && FramesFit(legacy, d.sent, d.captures)
    ensures var d := ClientDoes(c, v.sent, coming, a); d.sent == c.sent || exists e :: d.sent == c.sent + [e]
  {
    ClientKeepsLogs(v, c, coming, a);
    ClientKeepsCaptures(v, c, coming, a);
    ClientKeepsFrames(legacy, v, c, coming, a);
    ClientKeepsFit(v, c, coming, a);
  }

  lemma TimerKeeps(legacy: bool, v: Server, c: Client, coming: Option<Message>, t: TimerAct)
    requires LogsFit(v, c) && ClientFits(c) && TornCaptureFits(c)
    requires FramesFit(legacy, c.sent, c.captures) && TimerCan(legacy, c, coming, t)
    ensures var d := TimerDoes(legacy, c, coming, t);
            LogsFit(v, d) && ClientFits(d) && TornCaptureFits(d) && FramesFit(legacy, d.sent, d.captures)
            && d.captures == c.captures
    ensures var d := TimerDoes(legacy, c, coming, t); d.sent == c.sent || exists e :: d.sent == c.sent + [e]
  {
    if t.Sends? {
      ClientLogAppend(c.sent, Sent(t.frame, LastRound(c.sent)));
    }
  }

  // ---- the system ----

  lemma ReadKeepsInv(s: System)
    requires Inv(s) && WorkerCan(s.server, s.client.sent, Read)
    ensures Inv(s.(server := WorkerDoes(s.server, s.client.sent, Read)))
  {
    var v, c := s.server, s.client;
    WorkerKeepsTorn(v, c.sent, Read);
    ReadKeepsWorker(v, c);
    ReadKeepsDispatch(s.legacy, v, c);
    ReadKeepsReports(v, c);
  }

  lemma SendKeepsInv(s: System)
    requires Inv(s) && WorkerCan(s.server, s.client.sent, Send)
    ensures Inv(s.(server := WorkerDoes(s.server, s.client.sent, Send)))
  {
    var v, c := s.server, s.client;
    WorkerKeepsTorn(v, c.sent, Send);
    SendKeepsServer(s.legacy, v, c);
    SendKeepsReports(v, c.sent);
    SendKeepsRounds(v, c);
  }

  lemma BeginsKeepsInv(s: System)
    requires Inv(s) && WorkerCan(s.server, s.client.sent, Begins)
    ensures Inv(s.(server := WorkerDoes(s.server, s.client.sent, Begins)))
  {
  }

  /** Reads and writes that fail or are cut short. */
  lemma BrokenKeepsInv(s: System, a: WorkerAct)
    requires Inv(s) && WorkerCan(s.server, s.client.sent, a) && !a.Read? && !a.Send? && !a.Step? && !a.Begins?
    ensures Inv(s.(server := WorkerDoes(s.server, s.client.sent, a)))
  {
    var v, c := s.server, s.client;
    WorkerKeepsTorn(v, c.sent, a);
    match a
    case ReadTorn => ReadTornKeeps(s.legacy, v, c.sent);
    case ReadFails(closes) => ReadFailsKeeps(s.legacy, v, c.sent, closes);
    case SendLost => SendLostKeeps(s.legacy, v, c.sent);
    case SendFails(closes) => SendFailsKeeps(s.legacy, v, c.sent, closes);
  }

  lemma WorkerKeepsInv(s: System, a: WorkerAct)
    requires Inv(s) && WorkerCan(s.server, s.client.sent, a)
    ensures Inv(s.(server := WorkerDoes(s.server, s.client.sent, a)))
  {
    match a
    case Read => ReadKeepsInv(s);
    case Send => SendKeepsInv(s);
    case Begins => BeginsKeepsInv(s);
    case Step => StepKeepsInv(s);
    case _ => BrokenKeepsInv(s, a);
  }

  lemma StepKeepsServer(v: Server, toServer: seq<Sent>)
    requires CoreFits(v) && WorkerFits(v, toServer) && ReportsFit(v) && TornFits(v) && WorkerCan(v, toServer, Step)
    ensures var w := LocalStep(v); CoreFits(w) && WorkerFits(w, toServer) && ReportsFit(w) && TornFits(w)
  {
    if Quiet(v) {
      QuietKeepsTorn(v);
      QuietKeepsCore(v);
      QuietKeepsWorker(v, toServer);
      QuietKeepsReports(v);
    } else if Reports(v) {
      ReportKeepsTorn(v);
      ReportKeepsCore(v);
      ReportKeepsWorker(v, toServer);
      ReportKeepsReports(v);
    } else {
      CloseKeepsTorn(v);
      CloseKeepsCore(v);
      CloseKeepsWorker(v, toServer);
      CloseKeepsReports(v);
    }
  }

  lemma StepKeepsDispatch(legacy: bool, v: Server, toServer: seq<Sent>)
    requires v.taken <= |toServer| && CoreFits(v) && WorkerFits(v, toServer) && WorkerCan(v, toServer, Step)
    requires DispatchLags(v.core.log, toServer[..v.taken]) && DispatchFits(legacy, v, toServer)
    ensures DispatchLags(LocalStep(v).core.log, toServer[..v.taken]) && DispatchFits(legacy, LocalStep(v), toServer)
  {
    if v.pc.Handle? {
      HandleKeepsDispatch(legacy, v, toServer);
    } else if v.pc.Register? {
      RegisterKeepsDispatch(legacy, v, toServer);
    } else if Quiet(v) {
      QuietKeepsCore(v);
      QuietKeepsDispatch(legacy, v, toServer);
    } else {
      CloseKeepsDispatch(legacy, v, toServer);
    }
  }

  lemma StepKeepsInv(s: System)
    requires Inv(s) && WorkerCan(s.server, s.client.sent, Step)
    ensures Inv(s.(server := LocalStep(s.server)))
  {
    var v, c := s.server, s.client;
    StepKeepsNames(v, c.sent);
    StepKeepsServer(v, c.sent);
    StepKeepsDispatch(s.legacy, v, c.sent);
  }

  lemma OtherKeepsInv(s: System, o: OtherAct)
    requires Inv(s) && Can(s, ByOther(o))
    ensures Inv(Does(s, ByOther(o)))
  {
    var v, c, coming := s.server, s.client, ToWorker(s.server, s.client);
    OtherKeepsCore(v, coming, o);
    OtherKeepsTorn(v, coming, o);
    OtherKeepsWorker(v, c.sent, coming, o);
    OtherKeepsReports(v, c.sent, coming, o);
    if o.DispatchIt? {
      EndKeepsDispatch(s.legacy, v, c.sent, coming);
    } else {
      OtherKeepsDispatch(s.legacy, v, c.sent, coming, o);
    }
  }

  /** A message more from the client, or none, leaves the server's side as it is. */
  lemma ServerSideKept(s: System, d: Client)
    requires Inv(s) && (d.sent == s.client.sent || exists e :: d.sent == s.client.sent + [e])
    ensures var v := s.server;
            WorkerFits(v, d.sent) && NamesFit(v, d.sent) && RoundsAgree(v.sent, d.sent) && v.taken <= |d.sent|
            && DispatchLags(v.core.log, d.sent[..v.taken]) && DispatchFits(s.legacy, v, d.sent)
  {
    if d.sent != s.client.sent {
      var e :| d.sent == s.client.sent + [e];
      GrowthKeepsWorker(s.server, s.client.sent, e);
      GrowthKeepsDispatch(s.legacy, s.server, s.client.sent, e);
      GrowthKeepsRounds(s.server.sent, s.client.sent, e);
    }
  }

  lemma ClientKeepsInv(s: System, a: ClientAct)
    requires Inv(s) && Can(s, ByClient(a))
    ensures Inv(Does(s, ByClient(a)))
  {
    var v, c, coming := s.server, s.client, ToMain(s.server, s.client);
    ClientKeepsClient(s.legacy, v, c, coming, a);
    ServerSideKept(s, ClientDoes(c, v.sent, coming, a));
  }

  lemma TimerKeepsInv(s: System, t: TimerAct)
    requires Inv(s) && Can(s, ByTimer(t))
    ensures Inv(Does(s, ByTimer(t)))
  {
    var coming := ToMain(s.server, s.client);
    TimerKeeps(s.legacy, s.server, s.client, coming, t);
    ServerSideKept(s, TimerDoes(s.legacy, s.client, coming, t));
  }

  lemma DoesKeepsInv(s: System, a: Action)
    requires Inv(s) && Can(s, a)
    ensures Inv(Does(s, a))
  {
    match a
    case ByWorker(w) => WorkerKeepsInv(s, w);
    case ByOther(o) => OtherKeepsInv(s, o);
    case ByClient(c) => ClientKeepsInv(s, c);
    case ByTimer(t) => TimerKeepsInv(s, t);
  }

  /** Every state the system can reach satisfies the invariant. */
  lemma {:induction false} RunKeepsInv(s: System, run: seq<Action>)
    requires Inv(s) && IsRun(s, run)
    ensures Inv(After(s, run))
    decreases |run|
  {
    if run != [] {
      DoesKeepsInv(s, run[0]);
      RunKeepsInv(Does(s, run[0]), run[1..]);
    }
  }
}
