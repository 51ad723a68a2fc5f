/** Two ways in which a session goes wrong, with runs that lead there. */
module ProtocolTraps {
  import opened Bytes
  import opened Resolution
  import opened Messages
  import opened Sessions
  import opened Protocol
  import opened ProtocolInvariant
  import opened ProtocolProofs
  import opened ProtocolStreams
  import Tlv

  /** The worker is draining a closed socket, with no read left to come back with what it would not skip. */
  predicate Trapped(v: Server) {
    v.pc.Drain? && !v.core.open && !(v.cut.CutRead? && v.cut.got.tag != Tlv.StreamFrame)
  }

  lemma TrapHolds(s: System, a: Action)
    requires Trapped(s.server) && Can(s, a)
    ensures Trapped(Does(s, a).server)
  {
    if a == ByWorker(ReadTorn) {
      DecodeKeepsTag(s.server.cut.got);
    }
  }

  lemma {:induction false} TrapHoldsForever(s: System, run: seq<Action>)
    requires Trapped(s.server) && IsRun(s, run)
    ensures Trapped(After(s, run).server)
    decreases |run|
  {
    if run != [] {
      TrapHolds(s, run[0]);
      TrapHoldsForever(Does(s, run[0]), run[1..]);
    }
  }

  /** Once the socket is closed, a worker in the drain never leaves it again, whatever anyone does, so that joining it
      waits forever: it can only leave if the closing cut short the read of a message other than a StreamFrame, and that
      read still reports success. */
  lemma DrainEndsOnlyByTornRead(s: System)
    requires s.server.pc.Drain? && !s.server.core.open
    ensures (exists run :: IsRun(s, run) && !After(s, run).server.pc.Drain?)
            <==> s.server.cut.CutRead? && s.server.cut.got.tag != Tlv.StreamFrame
  {
    if Trapped(s.server) {
      forall run | IsRun(s, run) ensures After(s, run).server.pc.Drain? {
        TrapHoldsForever(s, run);
      }
    } else {
      var a := ByWorker(ReadTorn);
      RunAppend(s, [], a);
      DecodeKeepsTag(s.server.cut.got);
      assert !After(s, [] + [a]).server.pc.Drain?;
    }
  }

  // ---- the way out ----

  /** How far the worker of a terminated session is from its end. */
  function Steps(pc: WorkerPc): nat {
    match pc
    case Finished => 0
    case Terminating(within) => if within then 3 else 1
    case Ending(within) => if within then 3 else 1
    case CheckTerminated => 2
    case Waiting => 3
    case ReadHello => 4
    case Register(_, _) => 3
    case SendOk => 2
    case SendGetParams => 4
    case SendEnd => 4
    case SendInitialize(_) => 4
    case CheckStreaming => 5
    case ReadFrame => 7
    case Handle(_, _) => 6
    case Drained(_, _) => 5
    case Drain => 6
  }

  function WayOut(v: Server): WorkerAct {
    if v.pc.Drain? then ReadTorn
    else if Reading(v.pc) then ReadFails(false)
    else if Sending(v.pc) then SendFails(false)
    else Step
  }

  lemma WayOutLeads(v: Server, toServer: seq<Sent>)
    requires CoreFits(v) && v.core.state == Terminated && !Trapped(v) && !v.pc.Finished?
    ensures WorkerCan(v, toServer, WayOut(v))
    ensures var u := WorkerDoes(v, toServer, WayOut(v));
            u.core.state == Terminated && !Trapped(u) && Steps(u.pc) < Steps(v.pc)
  {
    if v.pc.Drain? {
      DecodeKeepsTag(v.cut.got);
    }
  }

  lemma {:induction false} FindsWayOut(s: System) returns (run: seq<Action>)
    requires Inv(s) && s.server.core.state == Terminated && !Trapped(s.server)
    ensures IsRun(s, run) && After(s, run).server.pc.Finished?
    decreases Steps(s.server.pc)
  {
    run := [];
    if !s.server.pc.Finished? {
      var a := ByWorker(WayOut(s.server));
      WayOutLeads(s.server, s.client.sent);
      DoesKeepsInv(s, a);
      var rest := FindsWayOut(Does(s, a));
      run := [a] + rest;
      assert run[1..] == rest;
    }
  }

  /** The worker of a terminated session can come to its end, so that joining it returns, exactly if it is not trapped
      in the drain. */
  lemma CanFinishIff(s: System)
    requires Inv(s) && s.server.core.state == Terminated
    ensures (exists run :: IsRun(s, run) && After(s, run).server.pc.Finished?) <==> !Trapped(s.server)
  {
    if Trapped(s.server) {
      forall run | IsRun(s, run) ensures !After(s, run).server.pc.Finished? {
        TrapHoldsForever(s, run);
      }
    } else {
      var run := FindsWayOut(s);
    }
  }

  /** A worker that has come to its end has left its session terminated, and takes no further step. */
  lemma FinishedIsOver(s: System, a: Action)
    requires Inv(s) && s.server.pc.Finished? && Can(s, a)
    ensures s.server.core.state == Terminated && Does(s, a).server.pc.Finished? && !a.ByWorker?
  {
  }

  // ---- runs that lead there ----

  const NAME: seq<byte> := []
  const HELLO := Sent(HelloMsg(NAME), 0)
  const LOG := [SessionStarted, ClientRegistered(NAME, false)]

  /** Both sides are up, the client registered. */
  lemma Greeted() returns (run: seq<Action>)
    ensures IsRun(Init(false), run) && After(Init(false), run) == Rest(LOG, [OkMsg], [HELLO], [], false)
  {
    run := Greeting(NAME);
  }

  /** A session terminated while its worker waits for the client's offer leaves the worker trapped. */
  lemma TrapIsReached()
    ensures exists run :: IsRun(Init(false), run) && Trapped(After(Init(false), run).server)
                          && After(Init(false), run).server.core.state == Terminated
  {
    var run := Greeted();
    var s;
    run, s := AsksParams(run, LOG, [OkMsg], [HELLO], [], false);
    run, s := Go(run, s, ByOther(TerminateIt(Uncut)));
    run, s := Go(run, s, ByWorker(ReadFails(false)));
  }

  const OFFER := Params(30, ScreenResolution(2, 2))
  const PACKET := H264PacketMsg(2, 2, [])
  const ROUND1 := [HELLO, Sent(StreamParamsMsg(OFFER), 1)]
  const REPLIES := [OkMsg, GetStreamParamsMsg, InitializeStreamMsg(OFFER)]

  lemma Offer1()
    ensures Answered([HELLO], OFFER) == ROUND1 && Asked([OkMsg]) == [OkMsg, GetStreamParamsMsg]
    ensures Initialized([OkMsg], OFFER) == REPLIES
  {
  }

  /** A session terminated while the offer is coming in, its length read in part: the worker leaves the drain. */
  lemma DrainIsLeft()
    ensures exists run :: IsRun(Init(false), run)
                          && var v := After(Init(false), run).server;
                             v.pc.Drain? && !v.core.open && v.cut == CutRead(Tlv.TlvMessage(Tlv.StreamParams, []))
  {
    var run := Greeted();
    var s;
    run, s := Offering(run, LOG, [OkMsg], [HELLO], [], false, OFFER);
    run, s := Go(run, s, ByOther(TerminateIt(CutRead(Tlv.TlvMessage(Tlv.StreamParams, [])))));
  }

  /** The client offers its parameters, and the server answers. */
  lemma Answered1() returns (run: seq<Action>, s: System)
    ensures IsRun(Init(false), run) && After(Init(false), run) == s
    ensures s == System(false, Server(Core(Streaming, true, 0, LOG), CheckStreaming, Uncut, false, 2, REPLIES),
                               Client(ReadInitialize, true, Uncut, true, true, 2, ROUND1, [], Off, false))
  {
    run := Greeted();
    run, s := Offering(run, LOG, [OkMsg], [HELLO], [], false, OFFER);
    Offer1();
    run, s := Go(run, s, ByWorker(Read));
    run, s := Go(run, s, ByWorker(Step));
    run, s := Go(run, s, ByWorker(Send));
  }

  /** The stream is stopped while a packet is on its way. */
  lemma StopsEarly() returns (run: seq<Action>, s: System)
    ensures IsRun(Init(false), run) && After(Init(false), run) == s
    ensures s == System(false,
                        Server(Core(Idle, true, 0, LOG), CheckStreaming, Uncut, false, 2, REPLIES),
                        Client(AwaitEnd, true, Uncut, true, true, 3, ROUND1 + [Sent(PACKET, 1)],
                               [Capture(OFFER, false)], Checking, false))
  {
    run := Greeted();
    run := Opening(run, LOG, [OkMsg], [HELLO], [], false, OFFER);
    Offer1();
    assert [] + [Capture(Negotiate(OFFER), false)] == [Capture(OFFER, false)];
    s := Live(LOG, REPLIES, ROUND1, [Capture(OFFER, false)]);
    run, s := Go(run, s, ByTimer(Checks));
    run, s := Go(run, s, ByOther(StopIt));
    run, s := Go(run, s, ByTimer(Sends(PACKET)));
  }

  lemma EndsStream() returns (run: seq<Action>, s: System)
    ensures IsRun(Init(false), run) && After(Init(false), run) == s
    ensures s == System(false,
                        Server(Core(Idle, true, 0, LOG), CheckTerminated, Uncut, false, 2, REPLIES + [EndStreamMsg]),
                        Client(AwaitEnd, true, Uncut, true, true, 3, ROUND1 + [Sent(PACKET, 1)],
                               [Capture(OFFER, false)], Checking, false))
  {
    run, s := StopsEarly();
    run, s := Go(run, s, ByWorker(Step));
    run, s := Go(run, s, ByWorker(Send));
  }

  /** Another is started. */
  lemma StartsAgain() returns (run: seq<Action>, s: System)
    ensures IsRun(Init(false), run) && After(Init(false), run) == s
    ensures s.server == Server(Core(Streaming, true, 0, LOG), SendGetParams, Uncut, false, 2, REPLIES + [EndStreamMsg])
    ensures s.client.sent == ROUND1 + [Sent(PACKET, 1)]
  {
    run, s := EndsStream();
    run, s := Go(run, s, ByWorker(Step));
    run, s := Go(run, s, ByOther(StartIt));
    run, s := Go(run, s, ByWorker(Step));
  }

  /** So a session whose stream is stopped and started again can end although both sides are up and nothing failed. */
  lemma RestartCanEndSession()
    ensures exists run :: IsRun(Init(false), run)
                          && var v := After(Init(false), run).server;
                             v.pc == Terminating(true) && v.core.state == Streaming && v.core.open && !v.inDead
  {
    var run, s := StartsAgain();
    run, s := Go(run, s, ByWorker(Send));
    run, s := Go(run, s, ByWorker(Read));
    run, s := Go(run, s, ByWorker(Step));
  }
}
