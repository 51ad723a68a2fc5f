/** Who gives up when: which steps end a session, a round or the client, and which do not. */
module ProtocolFailures {
  import opened Options
  import opened Messages
  import opened Sessions
  import opened Protocol
  import opened ProtocolInvariant
  import opened ProtocolProofs
  import opened ProtocolTheorems
  import Tlv

  // ---- the worker ----

  predicate Leaves(pc: WorkerPc) {
    pc.Terminating? || pc.Ending? || pc.Finished?
  }

  /** What the worker has got that was not what it waited for. */
  predicate Disappoints(pc: WorkerPc, got: Option<Message>) {
    pc.ReadHello? && !(got.Some? && got.value.HelloMsg?)
  }

  /** The worker terminates its session exactly if it fails to send, gets no Hello, gets no StreamParams after asking
      for them, or finds the session terminated. In particular no failed read does it once the client is registered. */
  lemma WorkerGivesUpIff(v: Server, toServer: seq<Sent>, w: WorkerAct)
    requires WorkerCan(v, toServer, w) && !Leaves(v.pc)
    ensures Leaves(WorkerDoes(v, toServer, w).pc) <==>
              match w
              case Read => Disappoints(v.pc, Some(toServer[v.taken].msg))
              case ReadTorn =>
                Disappoints(v.pc, Decode(v.cut.got))
                || (v.pc.Drain? && Decode(v.cut.got) == None && v.cut.got.tag != Tlv.StreamFrame)
              case ReadFails(_) => v.pc.ReadHello?
              case SendFails(_) => true
              case Step =>
                (v.pc.CheckTerminated? && v.core.state == Terminated)
                || (v.pc.Drained? && !v.pc.next.StreamParamsMsg?)
              case _ => false
  {
  }

  /** A round ends with EndStream, and the session goes on, if a read fails in it, or what is read is no frame, or the
      stream has been stopped. */
  lemma RoundEnds(v: Server, toServer: seq<Sent>)
    requires v.core.open && v.writing.None?
    requires || v.pc.ReadFrame?
             || (v.pc.Handle? && !IsFrame(v.pc.next))
             || (v.pc.CheckStreaming? && v.core.state != Streaming)
    ensures var w := if v.pc.ReadFrame? then ReadFails(false) else Step;
            && WorkerCan(v, toServer, w)
            && var u := WorkerDoes(v, toServer, w);
               && WorkerCan(u, toServer, Send)
               && var t := WorkerDoes(u, toServer, Send);
                  t.pc.CheckTerminated? && t.core == v.core && t.sent == v.sent + [EndStreamMsg]
  {
  }

  /** Whether the worker goes on taking frames is up to the state alone, and so is whether it asks for parameters. */
  lemma StateDecides(v: Server)
    ensures v.pc.CheckStreaming? ==> (LocalStep(v).pc.ReadFrame? <==> v.core.state == Streaming)
    ensures v.pc.Waiting? ==> (LocalStep(v).pc.SendGetParams? <==> v.core.state == Streaming)
    ensures v.pc.CheckTerminated? ==> (LocalStep(v).pc.Waiting? <==> v.core.state != Terminated)
  {
  }

  /** Where the worker is once its Terminate has returned. */
  function Given(v: Server): Server
    requires v.pc.Terminating?
  {
    var t := LocalStep(v);
    if t.pc.Ending? then LocalStep(t) else t
  }

  /** Giving up in a round returns to the main loop, which ends on it; giving up outside one ends the worker's thread.
      Either way the session is terminated and reported ended once, before or now, and nothing more is sent. */
  lemma GivingUpLeads(v: Server, toServer: seq<Sent>, w: WorkerAct)
    requires WorkerCan(v, toServer, w) && !Leaves(v.pc) && Leaves(WorkerDoes(v, toServer, w).pc)
    ensures var u := WorkerDoes(v, toServer, w);
            && u.pc.Terminating?
            && var g := Given(u);
               && g.core.state == Terminated && g.sent == v.sent
               && (g.pc.Finished? <==> v.pc.ReadHello? || v.pc.SendOk? || v.pc.CheckTerminated?)
               && (!g.pc.Finished? ==> g.pc.CheckTerminated? && LocalStep(g).pc == Terminating(false))
               && g.core.log == v.core.log + if v.core.state == Terminated then [] else [SessionEnded]
  {
  }

  /** A write that is cut short but reports success leads on like one that is not, having delivered nothing. */
  lemma LostLeadsOn(v: Server, c: Client, toServer: seq<Sent>, toClient: seq<Message>, coming: Option<Message>)
    ensures WorkerCan(v, toServer, SendLost) ==>
              var u := WorkerDoes(v, toServer, SendLost);
              && u.pc == WorkerDoes(v.(core := v.core.(open := true), writing := None), toServer, Send).pc
              && u.sent == v.sent
    ensures ClientCan(c, toClient, coming, WriteLost) ==>
              var d := ClientDoes(c, toClient, coming, WriteLost);
              (d.pc.ReadOk? <==> c.pc.SendHello?) && (d.pc.ReadInitialize? <==> c.pc.SendParams?) && d.sent == c.sent
  {
  }

  // ---- a direction that has failed ----

  lemma DeafWorker(v: Server, toServer: seq<Sent>, w: WorkerAct)
    requires v.inDead && WorkerCan(v, toServer, w)
    ensures var u := WorkerDoes(v, toServer, w); u.inDead && u.taken == v.taken
  {
  }

  lemma DeafClient(c: Client, toClient: seq<Message>, coming: Option<Message>, a: ClientAct)
    requires ClientCan(c, toClient, coming, a)
    ensures var d := ClientDoes(c, toClient, coming, a);
            && (!c.cIn ==> !d.cIn && d.taken == c.taken)
            && (!c.cOut ==> !d.cOut && d.sent == c.sent)
  {
  }

  lemma DeafStep(s: System, a: Action)
    requires Can(s, a)
    ensures var t := Does(s, a);
            && (s.server.inDead ==> t.server.inDead && t.server.taken == s.server.taken)
            && (!s.client.cIn ==> !t.client.cIn && t.client.taken == s.client.taken)
            && (!s.client.cOut ==> !t.client.cOut && t.client.sent == s.client.sent)
  {
    match a
    case ByWorker(w) =>
      if s.server.inDead {
        DeafWorker(s.server, s.client.sent, w);
      }
    case ByClient(b) => DeafClient(s.client, s.server.sent, ToMain(s.server, s.client), b);
    case _ =>
  }

  lemma {:induction false} DeafRun(s: System, run: seq<Action>)
    requires IsRun(s, run)
    ensures s.server.inDead ==> After(s, run).server.taken == s.server.taken
    ensures !s.client.cIn ==> After(s, run).client.taken == s.client.taken
    ensures !s.client.cOut ==> After(s, run).client.sent == s.client.sent
    decreases |run|
  {
    if run != [] {
      DeafStep(s, run[0]);
      DeafRun(Does(s, run[0]), run[1..]);
    }
  }

  /** After a read that failed no thread ever takes another message from that direction; after a write of the client
      that failed no thread ever delivers another. */
  lemma FailedForGood(s: System, a: Action, run: seq<Action>)
    requires Can(s, a) && IsRun(Does(s, a), run)
    ensures var t := After(Does(s, a), run);
            && (a.ByWorker? && a.w.ReadFails? ==> t.server.taken == s.server.taken)
            && (a.ByClient? && a.a.ReadFailing? ==> t.client.taken == s.client.taken)
            && ((a.ByClient? && a.a.WriteFails?) || (a.ByTimer? && a.t.FailsToSend?) ==> t.client.sent == s.client.sent)
  {
    DeafRun(Does(s, a), run);
  }

  // ---- a session that nobody starts ----

  predicate Starts(a: Action) {
    a.ByOther? && (a.o.StartIt? || a.o.ToggleIt?)
  }

  ghost predicate Unstarted(v: Server) {
    && v.core.state != Streaming && |v.sent| <= 1
    && (v.pc.ReadHello? || v.pc.Register? || v.pc.SendOk? || v.pc.CheckTerminated? || v.pc.Waiting? || Leaves(v.pc))
    && (v.pc.Terminating? || v.pc.Ending? ==> !v.pc.within)
    && ((v.pc.ReadHello? || v.pc.Register? || v.pc.SendOk?) ==> v.sent == [])
    && (forall e <- v.core.log :: !e.FrameReceived?)
  }

  lemma WorkerStaysUnstarted(v: Server, toServer: seq<Sent>, w: WorkerAct)
    requires Unstarted(v) && WorkerCan(v, toServer, w)
    ensures Unstarted(WorkerDoes(v, toServer, w))
  {
  }

  lemma StaysUnstarted(s: System, a: Action)
    requires Unstarted(s.server) && Can(s, a) && !Starts(a)
    ensures Unstarted(Does(s, a).server)
  {
    if a.ByWorker? {
      WorkerStaysUnstarted(s.server, s.client.sent, a.w);
    }
  }

  lemma {:induction false} RunStaysUnstarted(s: System, run: seq<Action>)
    requires Unstarted(s.server) && IsRun(s, run) && forall a <- run :: !Starts(a)
    ensures Unstarted(After(s, run).server)
    decreases |run|
  {
    if run != [] {
      assert !Starts(run[0]);
      StaysUnstarted(s, run[0]);
      RunStaysUnstarted(Does(s, run[0]), run[1..]);
    }
  }

  /** Without a click no screen is captured: as long as a session is not started, the server sends nothing but Ok, the
      client nothing but Hello, and no frame is captured or dispatched. */
  lemma NothingUnasked(legacy: bool, run: seq<Action>)
    requires IsRun(Init(legacy), run) && forall a <- run :: !Starts(a)
    ensures var s := After(Init(legacy), run);
            && s.server.sent <= [OkMsg]
            && |s.client.sent| <= 1 && (s.client.sent != [] ==> s.client.sent[0].msg.HelloMsg?)
            && (forall e <- s.server.core.log :: !e.FrameReceived?)
            && (forall c <- s.client.captures :: c.torn)
  {
    RunStaysUnstarted(Init(legacy), run);
    Reachable(legacy, run);
    OnlyHello(After(Init(legacy), run).server, After(Init(legacy), run).client);
  }

  lemma OnlyHello(v: Server, c: Client)
    requires LogsFit(v, c) && |v.sent| <= 1 && CapturesAgree(v.sent, c.captures)
    ensures v.sent <= [OkMsg]
    ensures |c.sent| <= 1 && (c.sent != [] ==> c.sent[0].msg.HelloMsg?)
    ensures forall k <- c.captures :: k.torn
  {
    if v.sent != [] {
      assert TagFits(v.sent[0], 0);
    }
    if c.sent != [] {
      assert EntryFits(c.sent, 0);
    }
    if |c.sent| > 1 {
      assert EntryFits(c.sent, 1);
      RoundsGrow(c.sent, 1, |c.sent| - 1);
    }
  }

  // ---- the client ----

  /** What the client's main thread has got, if anything, that it captures with. */
  predicate Captures(c: Client, got: Option<Message>) {
    c.pc.ReadInitialize? && got.Some? && got.value.InitializeStreamMsg?
  }

  /** What ends the client on reading it. */
  predicate Ends(c: Client, got: Option<Message>) {
    || (c.pc.ReadOk? && !(got.Some? && got.value.OkMsg?))
    || (Captures(c, got) && got.value.params.frameRate == 0)
  }

  /** What leaves it listening, or sets it to listen. */
  predicate Listens(c: Client, got: Option<Message>) {
    || (c.pc.ReadOk? && got.Some? && got.value.OkMsg?)
    || (c.pc.ReadMessage? && !(got.Some? && got.value.GetStreamParamsMsg?))
    || (c.pc.ReadInitialize? && !Captures(c, got))
  }

  function Got(c: Client, toClient: seq<Message>, a: ClientAct): Option<Message>
    requires (a.Reads? ==> c.taken < |toClient|) && (a.ReadsTorn? ==> c.cut.CutRead?)
  {
    if a.Reads? then Some(toClient[c.taken]) else if a.ReadsTorn? then Decode(c.cut.got) else None
  }

  /** The client's main thread ends exactly if it fails to register, fails to read while it listens, is to capture at a
      rate of 0, or dies. A failure to offer parameters or to get an answer does not end it. */
  lemma ClientEndsIff(c: Client, toClient: seq<Message>, coming: Option<Message>, a: ClientAct)
    requires ClientCan(c, toClient, coming, a) && !c.pc.Dead?
    ensures ClientDoes(c, toClient, coming, a).pc.Dead? <==>
              match a
              case Reads => Ends(c, Got(c, toClient, a))
              case ReadsTorn => Ends(c, Got(c, toClient, a))
              case ReadFailing(_) => c.pc.ReadOk? || c.pc.ReadMessage?
              case WriteFails(_) => c.pc.SendHello?
              case Dies => true
              case _ => false
  {
  }

  /** It goes back to listening exactly if it has registered, was told nothing it does not know of while it listened,
      failed to offer or to get an answer, or is done with a round. */
  lemma ClientListensIff(c: Client, toClient: seq<Message>, coming: Option<Message>, a: ClientAct)
    requires ClientCan(c, toClient, coming, a)
    requires a.Reads? || a.ReadsTorn? || a.ReadFailing? || a.WriteFails? || a.Joins?
    ensures ClientDoes(c, toClient, coming, a).pc.ReadMessage? <==>
              match a
              case ReadFailing(_) => c.pc.ReadInitialize?
              case WriteFails(_) => c.pc.SendParams?
              case Reads => Listens(c, Got(c, toClient, a))
              case ReadsTorn => Listens(c, Got(c, toClient, a))
              case _ => true
  {
  }

  /** It starts to capture, and its timer to run, exactly on an InitializeStream that it waits for; and whatever comes
      next, or nothing, stops the timer. */
  lemma TimerRunsIff(c: Client, toClient: seq<Message>, coming: Option<Message>, a: ClientAct)
    requires ClientFits(c) && ClientCan(c, toClient, coming, a) && (a.Reads? || a.ReadsTorn? || a.ReadFailing?)
    ensures var d := ClientDoes(c, toClient, coming, a);
            && (c.timer.Off? && !d.timer.Off? <==> Captures(c, Got(c, toClient, a)) && !Ends(c, Got(c, toClient, a)))
            && (d.timer.Off? || d.timer == c.timer || d.timer.Checking?)
            && (c.pc.AwaitEnd? ==> d.stop && d.pc.Joining? && d.timer == c.timer)
  {
  }
}
