/** What holds in every reachable state of the session protocol. */
module ProtocolTheorems {
  import opened Messages
  import opened Options
  import opened Sessions
  import opened Protocol
  import opened ProtocolInvariant
  import opened ProtocolProofs

  lemma Reachable(legacy: bool, run: seq<Action>)
    requires IsRun(Init(legacy), run)
    ensures Inv(After(Init(legacy), run)) && After(Init(legacy), run).legacy == legacy
  {
    InitHolds(legacy);
    RunKeepsInv(Init(legacy), run);
    LegacyKept(Init(legacy), run);
  }

  lemma {:induction false} LegacyKept(s: System, run: seq<Action>)
    requires IsRun(s, run)
    ensures After(s, run).legacy == s.legacy
    decreases |run|
  {
    if run != [] {
      LegacyKept(Does(s, run[0]), run[1..]);
    }
  }

  // ---- negotiation ----

  /** The parameters of the InitializeStreams sent, in order. */
  function Settlements(sent: seq<Message>): seq<Params> {
    if sent == [] then []
    else
      var before, last := Settlements(sent[..|sent| - 1]), sent[|sent| - 1];
      if last.InitializeStreamMsg? then before + [last.params] else before
  }

  lemma {:induction false} SettlementsByPlace(sent: seq<Message>)
    requires ServerLog(sent)
    ensures |Settlements(sent)| == |sent| / 3
    ensures forall k :: 0 <= k < |sent| / 3 ==>
                          sent[3 * k + 2].InitializeStreamMsg? && Settlements(sent)[k] == sent[3 * k + 2].params
  {
    if sent != [] {
      var before, n := sent[..|sent| - 1], |sent|;
      assert forall i :: 0 <= i < |before| ==> before[i] == sent[i] && TagFits(sent[i], i);
      SettlementsByPlace(before);
      assert TagFits(sent[n - 1], n - 1);
      assert if n % 3 == 0 then n - 1 == 3 * (n / 3 - 1) + 2 && (n - 1) / 3 == n / 3 - 1 else (n - 1) / 3 == n / 3;
    }
  }

  lemma SettledAsOffered(toClient: seq<Message>, toServer: seq<Sent>)
    requires ServerLog(toClient) && RoundsAgree(toClient, toServer)
    ensures |Settlements(toClient)| <= |Offers(toServer)|
    ensures forall k :: 0 <= k < |Settlements(toClient)| ==> Settlements(toClient)[k] == Negotiate(Offers(toServer)[k])
  {
    SettlementsByPlace(toClient);
  }

  lemma CapturedAsSettled(toClient: seq<Message>, captures: seq<Capture>)
    requires ServerLog(toClient) && CapturesAgree(toClient, captures)
    ensures forall j :: 0 <= j < |captures| && !captures[j].torn ==>
                          j < |Settlements(toClient)| && captures[j].params == Settlements(toClient)[j]
  {
    SettlementsByPlace(toClient);
  }

  /** In every reachable state the k-th InitializeStream carries the resolution of the client's k-th StreamParams and
      its frame rate or 60, whichever is less, and the client captures its rounds with just these: each of them, but for
      one at most, its last, made from a read that the closing of the client's own socket had cut short. */
  lemma Negotiation(legacy: bool, run: seq<Action>)
    requires IsRun(Init(legacy), run)
    ensures var s := After(Init(legacy), run);
            var settled, offers := Settlements(s.server.sent), Offers(s.client.sent);
            |settled| <= |offers|
            && (forall k :: 0 <= k < |settled| ==>
                  settled[k].resolution == offers[k].resolution
                  && settled[k].frameRate == (if offers[k].frameRate <= 60 then offers[k].frameRate else 60))
    ensures var c, settled := After(Init(legacy), run).client, Settlements(After(Init(legacy), run).server.sent);
            forall j :: 0 <= j < |c.captures| ==>
                          if c.captures[j].torn then j == |c.captures| - 1 && !c.open
                          else j < |settled| && c.captures[j].params == settled[j]
  {
    Reachable(legacy, run);
    var s := After(Init(legacy), run);
    SettledAsOffered(s.server.sent, s.client.sent);
    CapturedAsSettled(s.server.sent, s.client.captures);
  }

  // ---- frames ----

  /** No frame is stale, lost on the way to a later one, repeated or out of order: what the server has dispatched in
      round k is the beginning of what the client sent in round k. */
  lemma FramesInOrder(legacy: bool, run: seq<Action>, k: nat)
    requires IsRun(Init(legacy), run)
    ensures var s := After(Init(legacy), run); FramesDispatched(s.server.core.log, k) <= FramesSent(s.client.sent, k)
  {
    Reachable(legacy, run);
    var s := After(Init(legacy), run);
    FramesSentGrow(s.client.sent, s.server.taken, |s.client.sent|, k);
    assert s.client.sent[..|s.client.sent|] == s.client.sent;
    assert FramesDispatched(s.server.core.log, k) <= FramesSent(s.client.sent[..s.server.taken], k);
  }

  lemma {:induction false} FramesSentFit(sent: seq<Sent>, captures: seq<Capture>, k: nat)
    requires FramesFit(false, sent, captures)
    ensures forall m <- FramesSent(sent, k) :: m.H264PacketMsg? && 1 <= k <= |captures| && Untorn(captures[k - 1], m)
  {
    if sent != [] {
      var before := sent[..|sent| - 1];
      assert forall i :: 0 <= i < |before| ==> before[i] == sent[i];
      FramesSentFit(before, captures, k);
      assert IsFrame(sent[|sent| - 1].msg) ==> FrameFits(false, sent[|sent| - 1], captures);
    }
  }

  lemma SizedAsSettled(shown: seq<Message>, all: seq<Message>, captures: seq<Capture>, offers: seq<Params>, k: nat)
    requires shown <= all
    requires forall m <- all :: m.H264PacketMsg? && 1 <= k <= |captures| && Untorn(captures[k - 1], m)
    requires forall j :: 0 <= j < |captures| && !captures[j].torn ==>
                           j < |offers| && captures[j].params.resolution == offers[j].resolution
    ensures forall m <- shown :: m.H264PacketMsg? && 1 <= k <= |offers| && SizedAs(m, offers[k - 1])
  {
    forall m | m in shown ensures m.H264PacketMsg? && 1 <= k <= |offers| && SizedAs(m, offers[k - 1]) {
      assert m in all;
    }
  }

  /** End to end, every whole frame dispatched in round k is sized as the client itself offered in round k. */
  lemma FramesSizedAsOffered(run: seq<Action>, k: nat)
    requires IsRun(Init(false), run)
    ensures var s := After(Init(false), run);
            forall m <- FramesDispatched(s.server.core.log, k) ::
              m.H264PacketMsg? && 1 <= k <= |Offers(s.client.sent)| && SizedAs(m, Offers(s.client.sent)[k - 1])
  {
    Reachable(false, run);
    FramesInOrder(false, run, k);
    Negotiation(false, run);
    var s := After(Init(false), run);
    FramesSentFit(s.client.sent, s.client.captures, k);
    SizedAsSettled(FramesDispatched(s.server.core.log, k), FramesSent(s.client.sent, k), s.client.captures,
                   Offers(s.client.sent), k);
  }

  // ---- the order of messages on the wire ----

  /** The server's messages are a prefix of Ok (GetStreamParams InitializeStream EndStream)*, the client's of
      Hello (StreamParams H264Packet*)*. */
  lemma WireOrder(legacy: bool, run: seq<Action>)
    requires IsRun(Init(legacy), run)
    ensures var s := After(Init(legacy), run);
            && (forall i :: 0 <= i < |s.server.sent| ==>
                  if i == 0 then s.server.sent[i].OkMsg?
                  else if i % 3 == 1 then s.server.sent[i].GetStreamParamsMsg?
                  else if i % 3 == 2 then s.server.sent[i].InitializeStreamMsg?
                  else s.server.sent[i].EndStreamMsg?)
            && (forall i :: 0 <= i < |s.client.sent| ==>
                  if i == 0 then s.client.sent[i].msg.HelloMsg?
                  else if i == 1 then s.client.sent[i].msg.StreamParamsMsg?
                  else s.client.sent[i].msg.StreamParamsMsg?
                       || (if legacy then s.client.sent[i].msg.StreamFrameMsg?
                           else s.client.sent[i].msg.H264PacketMsg?))
  {
    Reachable(legacy, run);
    var s := After(Init(legacy), run);
    forall i | 0 <= i < |s.server.sent| ensures TagFits(s.server.sent[i], i) {
    }
    forall i | 0 <= i < |s.client.sent|
      ensures EntryFits(s.client.sent, i)
      ensures IsFrame(s.client.sent[i].msg) ==> FrameFits(legacy, s.client.sent[i], s.client.captures)
    {
    }
    if |s.client.sent| > 1 {
      assert EntryFits(s.client.sent, 0) && EntryFits(s.client.sent, 1);
    }
  }

  /** The client's two threads never send at the same time, and no callback runs on after the timer is gone: outside the
      wait for EndStream and the join that follows it, the timer's thread can do nothing, and during them the main
      thread sends nothing. */
  lemma OneSender(legacy: bool, run: seq<Action>, coming: Option<Message>, t: TimerAct)
    requires IsRun(Init(legacy), run) && TimerCan(legacy, After(Init(legacy), run).client, coming, t)
    ensures var c := After(Init(legacy), run).client; c.pc.AwaitEnd? || c.pc.Joining?
    ensures var c, toClient := After(Init(legacy), run).client, After(Init(legacy), run).server.sent;
            forall a :: ClientCan(c, toClient, coming, a) ==> ClientDoes(c, toClient, coming, a).sent == c.sent
  {
    Reachable(legacy, run);
    var s := After(Init(legacy), run);
    MainSilent(legacy, s.client, s.server.sent, coming, t);
  }

  lemma MainSilent(legacy: bool, c: Client, toClient: seq<Message>, coming: Option<Message>, t: TimerAct)
    requires ClientFits(c) && TimerCan(legacy, c, coming, t)
    ensures c.pc.AwaitEnd? || c.pc.Joining?
    ensures forall a :: ClientCan(c, toClient, coming, a) ==> ClientDoes(c, toClient, coming, a).sent == c.sent
  {
  }

  // ---- the log of one session ----

  /** Every session's log starts with SessionStarted, registers once at most and before all frames, ends at most once,
      with the state terminated and the socket closed, and holds at most one late report of the worker after that. */
  lemma SessionLog(legacy: bool, run: seq<Action>)
    requires IsRun(Init(legacy), run)
    ensures var v := After(Init(legacy), run).server;
            && v.core.log != [] && v.core.log[0] == SessionStarted && InOrder(v.core.log)
            && Ends(v.core.log) <= 1 && Late(v.core.log) <= 1
            && (SessionEnded in v.core.log ==> v.core.state == Terminated && !v.core.open)
  {
    Reachable(legacy, run);
    var v := After(Init(legacy), run).server;
    EndsCounts(v.core.log);
    if SessionEnded !in v.core.log {
      NeverLate(v.core.log);
    }
  }

  /** Only the termination of a session by another thread can let a report of cut-short data through, and only one. */
  lemma TornAtMostOnce(legacy: bool, run: seq<Action>)
    requires IsRun(Init(legacy), run)
    ensures var c := After(Init(legacy), run).server.core;
            TornReports(c.log) <= 1 && (c.state != Terminated ==> TornReports(c.log) == 0)
  {
    Reachable(legacy, run);
  }

  /** The name a session is registered under is the one its client sent. */
  lemma RegisteredByName(legacy: bool, run: seq<Action>, e: Event)
    requires IsRun(Init(legacy), run) && e in After(Init(legacy), run).server.core.log
    requires e.ClientRegistered? && !e.torn
    ensures var sent := After(Init(legacy), run).client.sent; sent != [] && sent[0].msg == HelloMsg(e.name)
  {
    Reachable(legacy, run);
  }

  // ---- leftovers ----

  predicate CanDrain(v: Server, toServer: seq<Sent>) {
    v.pc.Drain? && WorkerCan(v, toServer, Read)
  }

  /** Every frame the client sent in the round before has been dispatched. */
  predicate CaughtUp(v: Server, toServer: seq<Sent>) {
    Round(v) > 1 ==> FramesDispatched(v.core.log, Round(v) - 1) == FramesSent(toServer, Round(v) - 1)
  }

  lemma OfferIsNext(v: Server, c: Client)
    requires LogsFit(v, c) && v.taken < |c.sent| && c.sent[v.taken].msg.StreamParamsMsg?
    requires v.taken > 0 && c.sent[v.taken - 1].round == Round(v) - 1
    requires DispatchFits(false, v, c.sent) && v.pc.Drain? && v.core.open
    ensures CaughtUp(v, c.sent)
  {
    NextForWorker(v, c);
    if Round(v) > 1 {
      NoFramesAfter(c.sent, v.taken, |c.sent|, Round(v) - 1);
      assert c.sent[..|c.sent|] == c.sent;
    }
  }

  /** What the worker does with the message the drain finds next: it settles on the offer of its round, or it goes on to
      terminate the session. */
  predicate TakesOffer(v: Server, toServer: seq<Sent>)
    requires CanDrain(v, toServer)
  {
    var read := WorkerDoes(v, toServer, Read);
    read.pc.Drained? && 1 <= Round(v) <= |Offers(toServer)|
    && LocalStep(read).pc == SendInitialize(Negotiate(Offers(toServer)[Round(v) - 1]))
  }

  predicate GivesUp(v: Server, toServer: seq<Sent>)
    requires CanDrain(v, toServer)
  {
    var read := WorkerDoes(v, toServer, Read);
    read.pc.Drained? && LocalStep(read).pc == Terminating(true)
  }

  /** With the client as it is, which sends H264Packets, the message the drain finds next is the new offer exactly when
      every packet of the round before has been dispatched; then the handshake goes on with that offer. Otherwise it is
      a leftover packet, which is not skipped, and the worker goes on to terminate the session. */
  lemma Restart(run: seq<Action>)
    requires IsRun(Init(false), run)
    requires var s := After(Init(false), run); CanDrain(s.server, s.client.sent)
    ensures var s := After(Init(false), run);
            if CaughtUp(s.server, s.client.sent) then TakesOffer(s.server, s.client.sent)
            else GivesUp(s.server, s.client.sent)
  {
    Reachable(false, run);
    var s := After(Init(false), run);
    DrainGoesOn(s.server, s.client);
  }

  lemma DrainGoesOn(v: Server, c: Client)
    requires LogsFit(v, c) && WorkerFits(v, c.sent) && CanDrain(v, c.sent) && FramesFit(false, c.sent, c.captures)
    requires DispatchLags(v.core.log, c.sent[..v.taken]) && DispatchFits(false, v, c.sent)
    ensures if CaughtUp(v, c.sent) then TakesOffer(v, c.sent) else GivesUp(v, c.sent)
  {
    DrainFinds(v, c);
    DrainTakes(v, c);
  }

  lemma DrainFinds(v: Server, c: Client)
    requires LogsFit(v, c) && WorkerFits(v, c.sent) && CanDrain(v, c.sent)
    requires DispatchLags(v.core.log, c.sent[..v.taken]) && DispatchFits(false, v, c.sent)
    ensures c.sent[v.taken].msg.StreamParamsMsg? <==> CaughtUp(v, c.sent)
  {
    NextForWorker(v, c);
    if c.sent[v.taken].msg.StreamParamsMsg? {
      OfferIsNext(v, c);
    } else {
      LeftoverBehind(v, c.sent, Round(v) - 1);
    }
  }

  lemma DrainTakes(v: Server, c: Client)
    requires LogsFit(v, c) && WorkerFits(v, c.sent) && CanDrain(v, c.sent) && FramesFit(false, c.sent, c.captures)
    ensures if c.sent[v.taken].msg.StreamParamsMsg? then TakesOffer(v, c.sent) else GivesUp(v, c.sent)
  {
    NextForWorker(v, c);
    assert IsFrame(c.sent[v.taken].msg) ==> FrameFits(false, c.sent[v.taken], c.captures);
  }

  lemma LeftoverBehind(v: Server, sent: seq<Sent>, k: nat)
    requires v.taken < |sent| && IsFrame(sent[v.taken].msg) && sent[v.taken].round == k
    requires DispatchLags(v.core.log, sent[..v.taken])
    ensures FramesDispatched(v.core.log, k) != FramesSent(sent, k)
  {
    FramesSentStep(sent, v.taken, k);
    FramesSentGrow(sent, v.taken + 1, |sent|, k);
    assert sent[..|sent|] == sent;
    assert FramesDispatched(v.core.log, k) <= FramesSent(sent[..v.taken], k);
  }

  /** With a client that sends StreamFrames the drain does what it is for: each message it finds is a frame of the round
      before, which it drops without dispatching it, or the new offer, which it takes. */
  lemma LegacyRestart(run: seq<Action>)
    requires IsRun(Init(true), run)
    requires var s := After(Init(true), run); CanDrain(s.server, s.client.sent)
    ensures var v, sent := After(Init(true), run).server, After(Init(true), run).client.sent;
            if sent[v.taken].round == Round(v) - 1 then WorkerDoes(v, sent, Read) == v.(taken := v.taken + 1)
            else TakesOffer(v, sent)
  {
    Reachable(true, run);
    var s := After(Init(true), run);
    LegacyDrain(s.server, s.client);
  }

  lemma LegacyDrain(v: Server, c: Client)
    requires LogsFit(v, c) && WorkerFits(v, c.sent) && CanDrain(v, c.sent) && FramesFit(true, c.sent, c.captures)
    ensures if c.sent[v.taken].round == Round(v) - 1 then WorkerDoes(v, c.sent, Read) == v.(taken := v.taken + 1)
            else TakesOffer(v, c.sent)
  {
    NextForWorker(v, c);
    assert IsFrame(c.sent[v.taken].msg) ==> FrameFits(true, c.sent[v.taken], c.captures);
  }
}
