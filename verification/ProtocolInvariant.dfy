/** The inductive invariant of the session protocol. */
module ProtocolInvariant {
  import opened Options
  import opened Messages
  import opened Sessions
  import opened Protocol

  // ---- the two logs of messages ----

  predicate TagFits(m: Message, i: nat) {
    if i == 0 then m.OkMsg?
    else if i % 3 == 1 then m.GetStreamParamsMsg?
    else if i % 3 == 2 then m.InitializeStreamMsg?
    else m.EndStreamMsg?
  }

  /** A prefix of Ok (GetStreamParams InitializeStream EndStream)*. */
  predicate ServerLog(sent: seq<Message>) {
    forall i :: 0 <= i < |sent| ==> TagFits(sent[i], i)
  }

  predicate EntryFits(sent: seq<Sent>, i: nat)
    requires i < |sent|
  {
    if i == 0 then sent[0].msg.HelloMsg? && sent[0].round == 0
    else if sent[i].msg.StreamParamsMsg? then sent[i].round == sent[i - 1].round + 1
    else IsFrame(sent[i].msg) && sent[i].round == sent[i - 1].round && sent[i].round >= 1
  }

  /** A prefix of Hello (StreamParams frame*)*, with the rounds counting the StreamParams. */
  predicate ClientLog(sent: seq<Sent>) {
    forall i :: 0 <= i < |sent| ==> EntryFits(sent, i)
  }

  lemma ClientLogAppend(sent: seq<Sent>, e: Sent)
    requires ClientLog(sent) && EntryFits(sent + [e], |sent|)
    ensures ClientLog(sent + [e])
  {
    forall i | 0 <= i < |sent + [e]| ensures EntryFits(sent + [e], i) {
      if i < |sent| {
        assert EntryFits(sent, i);
      }
    }
  }

  lemma {:induction false} RoundsGrow(sent: seq<Sent>, i: nat, j: nat)
    requires ClientLog(sent) && i <= j < |sent|
    ensures sent[i].round <= sent[j].round
  {
    if i < j {
      RoundsGrow(sent, i, j - 1);
      assert EntryFits(sent, j);
    }
  }

  lemma OffersAppend(sent: seq<Sent>, e: Sent)
    ensures Offers(sent + [e]) == if e.msg.StreamParamsMsg? then Offers(sent) + [e.msg.params] else Offers(sent)
  {
    assert (sent + [e])[..|sent|] == sent;
  }

  lemma ClientLogInit(sent: seq<Sent>)
    requires ClientLog(sent) && sent != []
    ensures ClientLog(sent[..|sent| - 1])
  {
    var before := sent[..|sent| - 1];
    forall i | 0 <= i < |before| ensures EntryFits(before, i) {
      assert EntryFits(sent, i);
    }
  }

  /** The rounds do count the offers, and an offer is found under its round. */
  lemma {:induction false} OffersByRound(sent: seq<Sent>)
    requires ClientLog(sent)
    ensures |Offers(sent)| == LastRound(sent)
    ensures forall i :: 0 <= i < |sent| && sent[i].msg.StreamParamsMsg? ==>
                          1 <= sent[i].round <= |Offers(sent)| && Offers(sent)[sent[i].round - 1] == sent[i].msg.params
  {
    if sent != [] {
      var before := sent[..|sent| - 1];
      ClientLogInit(sent);
      OffersByRound(before);
      assert EntryFits(sent, |sent| - 1);
      forall i | 0 <= i < |sent| && sent[i].msg.StreamParamsMsg?
        ensures 1 <= sent[i].round <= |Offers(sent)| && Offers(sent)[sent[i].round - 1] == sent[i].msg.params
      {
        if i < |before| {
          assert before[i] == sent[i];
        }
      }
    }
  }

  lemma FramesSentStep(sent: seq<Sent>, i: nat, k: nat)
    requires i < |sent|
    ensures FramesSent(sent[..i + 1], k) ==
              if IsFrame(sent[i].msg) && sent[i].round == k then FramesSent(sent[..i], k) + [sent[i].msg]
              else FramesSent(sent[..i], k)
  {
    assert sent[..i + 1][..i] == sent[..i];
  }

  lemma TakeOfAppend<T>(s: seq<T>, e: T, i: nat)
    requires i <= |s|
    ensures (s + [e])[..i] == s[..i]
  {
  }

  lemma PrefixOfLonger<T>(a: seq<T>, b: seq<T>, e: T)
    requires a <= b
    ensures a <= b + [e]
  {
  }

  lemma {:induction false} FramesSentGrow(sent: seq<Sent>, i: nat, j: nat, k: nat)
    requires i <= j <= |sent|
    ensures FramesSent(sent[..i], k) <= FramesSent(sent[..j], k)
  {
    if i < j {
      FramesSentGrow(sent, i, j - 1, k);
      FramesSentStep(sent, j - 1, k);
      PrefixOfLonger(FramesSent(sent[..i], k), FramesSent(sent[..j - 1], k), sent[j - 1].msg);
    }
  }

  lemma {:induction false} NoFramesYet(sent: seq<Sent>, i: nat, k: nat)
    requires ClientLog(sent) && i <= |sent| && (i > 0 ==> sent[i - 1].round < k)
    ensures FramesSent(sent[..i], k) == []
  {
    if i > 0 {
      if i > 1 {
        assert EntryFits(sent, i - 1);
      }
      NoFramesYet(sent, i - 1, k);
      FramesSentStep(sent, i - 1, k);
    }
  }

  lemma {:induction false} NoFramesAfter(sent: seq<Sent>, i: nat, j: nat, k: nat)
    requires ClientLog(sent) && i <= j <= |sent| && (i < |sent| ==> sent[i].round > k)
    ensures FramesSent(sent[..j], k) == FramesSent(sent[..i], k)
  {
    if i < j {
      NoFramesAfter(sent, i, j - 1, k);
      RoundsGrow(sent, i, j - 1);
      FramesSentStep(sent, j - 1, k);
    }
  }

  lemma FramesDispatchedAppend(log: seq<Event>, e: Event, k: nat)
    ensures FramesDispatched(log + [e], k) ==
              if e.FrameReceived? && e.place.Some? && e.round == k then FramesDispatched(log, k) + [e.frame]
              else FramesDispatched(log, k)
  {
    assert (log + [e])[..|log|] == log;
  }

  // ---- the log of events ----

  predicate Reported(e: Event) {
    e.ClientRegistered? || e.FrameReceived?
  }

  predicate Registered(log: seq<Event>) {
    exists i :: 0 <= i < |log| && log[i].ClientRegistered?
  }

  predicate Silent(log: seq<Event>) {
    forall i :: 0 <= i < |log| ==> !Reported(log[i])
  }

  /** Started first and only first; one registration at most, before all frames. */
  predicate InOrder(log: seq<Event>) {
    log == [] ||
    var before, last := log[..|log| - 1], log[|log| - 1];
    && InOrder(before)
    && match last
       case SessionStarted => before == []
       case ClientRegistered(_, _) => before != [] && Silent(before)
       case FrameReceived(_, _, _) => Registered(before)
       case SessionEnded => before != []
  }

  lemma InOrderAppend(log: seq<Event>, e: Event)
    requires InOrder(log) && log != []
    requires e.ClientRegistered? ==> Silent(log)
    requires e.FrameReceived? ==> Registered(log)
    requires !e.SessionStarted?
    ensures InOrder(log + [e])
    ensures Registered(log) || e.ClientRegistered? ==> Registered(log + [e])
    ensures Silent(log) && e.SessionEnded? ==> Silent(log + [e])
  {
    var longer := log + [e];
    assert longer[..|log|] == log;
    assert longer[|log|] == e;
    if Registered(log) {
      var i :| 0 <= i < |log| && log[i].ClientRegistered?;
      assert longer[i].ClientRegistered?;
    }
  }

  /** How many reports of the worker come after SessionEnded. */
  function Late(log: seq<Event>): nat {
    if log == [] then 0
    else
      var before, last := log[..|log| - 1], log[|log| - 1];
      Late(before) + if Reported(last) && SessionEnded in before then 1 else 0
  }

  lemma LateAppend(log: seq<Event>, e: Event)
    ensures Late(log + [e]) == Late(log) + if Reported(e) && SessionEnded in log then 1 else 0
    ensures SessionEnded !in log ==> Late(log) == 0
  {
    assert (log + [e])[..|log|] == log;
    if SessionEnded !in log {
      NeverLate(log);
    }
  }

  lemma {:induction false} NeverLate(log: seq<Event>)
    requires SessionEnded !in log
    ensures Late(log) == 0
  {
    if log != [] {
      NeverLate(log[..|log| - 1]);
    }
  }

  // ---- the invariant ----

  /** The round of the last message taken. */
  function TakenRound(toServer: seq<Sent>, taken: nat): nat
    requires taken <= |toServer|
  {
    if taken == 0 then 0 else toServer[taken - 1].round
  }

  ghost predicate CoreFits(v: Server) {
    && CoreInv(v.core)
    && (v.pc.Ending? ==> v.core.ending > 0)
    && (v.pc.Finished? ==> v.core.state == Terminated)
  }

  ghost predicate LogsFit(v: Server, c: Client) {
    && ServerLog(v.sent) && ClientLog(c.sent)
    && v.taken <= |c.sent| && c.taken <= |v.sent|
    && LastRound(c.sent) <= (c.taken + 1) / 3
  }

  /** At a place between two rounds, asking for parameters, or within round g. */
  ghost predicate Between(v: Server, toServer: seq<Sent>) {
    |v.sent| % 3 == 1 && 0 < v.taken <= |toServer| && TakenRound(toServer, v.taken) == Round(v)
  }

  ghost predicate Asking(v: Server, toServer: seq<Sent>) {
    |v.sent| % 3 == 2 && 0 < v.taken <= |toServer|
  }

  ghost predicate Within(v: Server, toServer: seq<Sent>) {
    |v.sent| % 3 == 0 && |v.sent| > 0 && 0 < v.taken <= |toServer| && TakenRound(toServer, v.taken) == Round(v)
  }

  /** The worker holds the parameters offered in the current round. */
  ghost predicate Offered(v: Server, toServer: seq<Sent>, p: Params) {
    var g := Round(v);
    0 < v.taken <= |toServer| && TakenRound(toServer, v.taken) == g
    && 1 <= g <= |Offers(toServer)| && p == Offers(toServer)[g - 1]
  }

  ghost predicate Settled(v: Server, toServer: seq<Sent>, p: Params) {
    var g := Round(v);
    0 < v.taken <= |toServer| && TakenRound(toServer, v.taken) == g
    && 1 <= g <= |Offers(toServer)| && p == Negotiate(Offers(toServer)[g - 1])
  }

  /** As long as the socket is open, where the worker is tells what it has sent and how far it has read. */
  ghost predicate WorkerFits(v: Server, toServer: seq<Sent>) {
    v.core.open ==>
      match v.pc
      case ReadHello => v.sent == [] && v.taken == 0
      case Register(_, torn) => v.sent == [] && v.taken == 1 && !torn
      case SendOk => v.sent == [] && v.taken == 1
      case CheckTerminated => Between(v, toServer)
      case Waiting => Between(v, toServer)
      case SendGetParams => Between(v, toServer)
      case Drain => Asking(v, toServer) && TakenRound(toServer, v.taken) == Round(v) - 1
      case Drained(m, torn) => Asking(v, toServer) && !torn && (m.StreamParamsMsg? ==> Offered(v, toServer, m.params))
      case SendInitialize(p) => Asking(v, toServer) && Settled(v, toServer, p)
      case CheckStreaming => Within(v, toServer)
      case ReadFrame => Within(v, toServer)
      case Handle(_, torn) => Within(v, toServer) && !torn
      case SendEnd => Within(v, toServer)
      case _ => true
  }

  /** Likewise for the client. */
  ghost predicate ClientFits(c: Client) {
    && ClientAt(c)
    && (!c.timer.Off? ==> c.pc.AwaitEnd? || c.pc.Joining?)
    && (!c.cut.Uncut? ==> !c.open)
  }

  ghost predicate ClientAt(c: Client) {
    var p, n, k := LastRound(c.sent), c.taken, |c.captures|;
    c.open ==>
      match c.pc
      case SendHello => c.sent == [] && n == 0 && k == 0
      case ReadOk => |c.sent| == 1 && p == 0 && n == 0 && k == 0
      case ReadMessage => c.sent != [] && (c.cIn && c.cOut ==> n % 3 == 1 && p == (n + 1) / 3 == k)
      case SendParams => c.sent != [] && c.cIn && n % 3 == 2 && (c.cOut ==> p + 1 == (n + 1) / 3 && k == p)
      case ReadInitialize => c.sent != [] && c.cIn && n % 3 == 2 && p == (n + 1) / 3 == k + 1
      case AwaitEnd => c.sent != [] && c.cIn && n % 3 == 0 && n > 0 && p == n / 3 == k && !c.stop
      case Joining => c.sent != [] && p == k > 0 && c.stop && (c.cIn ==> n % 3 == 1 && p == (n + 1) / 3)
      case Dead => true
  }

  /** The InitializeStream of each round answers that round's offer... */
  ghost predicate RoundsAgree(toClient: seq<Message>, toServer: seq<Sent>) {
    && |toClient| / 3 <= |Offers(toServer)|
    && (forall k :: 0 <= k < |toClient| / 3 ==>
          toClient[3 * k + 2] == InitializeStreamMsg(Negotiate(Offers(toServer)[k])))
  }

  /** ... and is what the client captures with, unless it got it from a torn read. */
  ghost predicate CapturesAgree(toClient: seq<Message>, captures: seq<Capture>) {
    forall j :: 0 <= j < |captures| && !captures[j].torn ==>
                  3 * j + 2 < |toClient| && toClient[3 * j + 2] == InitializeStreamMsg(captures[j].params)
  }

  /** That happens for one capture at most, the last, the client's socket being closed and no other read torn. */
  ghost predicate TornCaptureFits(c: Client) {
    forall j :: 0 <= j < |c.captures| && c.captures[j].torn ==> j == |c.captures| - 1 && !c.open && c.cut.Uncut?
  }

  predicate Untorn(c: Capture, m: Message)
    requires m.H264PacketMsg?
  {
    !c.torn && SizedAs(m, c.params)
  }

  predicate FrameFits(legacy: bool, e: Sent, captures: seq<Capture>) {
    if legacy then e.msg.StreamFrameMsg?
    else e.msg.H264PacketMsg? && 1 <= e.round <= |captures| && Untorn(captures[e.round - 1], e.msg)
  }

  /** Every frame is of the client's kind and sized as its round was settled. */
  ghost predicate FramesFit(legacy: bool, toServer: seq<Sent>, captures: seq<Capture>) {
    forall i :: 0 <= i < |toServer| && IsFrame(toServer[i].msg) ==> FrameFits(legacy, toServer[i], captures)
  }

  /** What has been dispatched is always the start of what was read, round by round. */
  ghost predicate DispatchLags(log: seq<Event>, read: seq<Sent>) {
    forall k: nat :: FramesDispatched(log, k) <= FramesSent(read, k)
  }

  ghost predicate Caught(log: seq<Event>, read: seq<Sent>, k: nat) {
    FramesDispatched(log, k) == FramesSent(read, k)
  }

  /** It is exactly what was read wherever no frame has been skipped. */
  ghost predicate DispatchFits(legacy: bool, v: Server, toServer: seq<Sent>)
    requires v.taken <= |toServer|
  {
    var g, log, read := Round(v), v.core.log, toServer[..v.taken];
    && (v.pc.Handle? && !v.pc.torn ==>
          && v.taken > 0 && v.pc.next == toServer[v.taken - 1].msg && toServer[v.taken - 1].round == g
          && IsFrame(v.pc.next)
          && Caught(log, toServer[..v.taken - 1], g))
    && (v.core.open ==>
          match v.pc
          case CheckTerminated => g > 0 ==> Caught(log, read, g)
          case Waiting => g > 0 ==> Caught(log, read, g)
          case SendGetParams => g > 0 ==> Caught(log, read, g)
          case CheckStreaming => Caught(log, read, g)
          case ReadFrame => Caught(log, read, g)
          case SendEnd => Caught(log, read, g)
          case Drain => FramesSent(read, g) == [] && (!legacy && g > 1 ==> Caught(log, read, g - 1))
          case Drained(_, _) => FramesSent(read, g) == []
          case SendInitialize(_) => FramesSent(read, g) == []
          case _ => true)
  }

  /** How many more reports the worker can still make once the socket is closed. */
  function Pending(v: Server): nat {
    if v.pc.Register? || v.pc.Handle? then 1
    else if (v.pc.ReadHello? || v.pc.ReadFrame?) && (v.core.open || !v.cut.Uncut?) then 1
    else 0
  }

  predicate Unregistered(pc: WorkerPc) {
    pc.ReadHello? || pc.Register?
  }

  /** Places that a worker whose registration failed can be at, too. */
  predicate Leaving(pc: WorkerPc) {
    pc.Finished? || pc == Terminating(false) || pc == Ending(false)
  }

  ghost predicate ReportsFit(v: Server) {
    && v.core.log != []
    && InOrder(v.core.log)
    && (Unregistered(v.pc) ==> Silent(v.core.log))
    && (!Unregistered(v.pc) && !Leaving(v.pc) ==> Registered(v.core.log))
    && (SessionEnded in v.core.log ==> Late(v.core.log) + Pending(v) <= 1)
  }

  /** The name reported is the one the client sent. */
  ghost predicate NamesFit(v: Server, toServer: seq<Sent>) {
    && (v.pc.Register? && !v.pc.torn ==> toServer != [] && toServer[0].msg == HelloMsg(v.pc.name))
    && (forall e <- v.core.log :: e.ClientRegistered? && !e.torn ==>
                                    toServer != [] && toServer[0].msg == HelloMsg(e.name))
  }

  predicate Torn(e: Event) {
    (e.ClientRegistered? && e.torn) || (e.FrameReceived? && e.place.None?)
  }

  function TornReports(log: seq<Event>): nat {
    if log == [] then 0 else TornReports(log[..|log| - 1]) + if Torn(log[|log| - 1]) then 1 else 0
  }

  lemma TornAppend(log: seq<Event>, e: Event)
    ensures TornReports(log + [e]) == TornReports(log) + if Torn(e) then 1 else 0
  {
    assert (log + [e])[..|log|] == log;
  }

  predicate HoldsTorn(pc: WorkerPc) {
    (pc.Register? && pc.torn) || (pc.Drained? && pc.torn) || (pc.Handle? && pc.torn)
  }

  /** One cut-short read or write at most, and only once the session is terminated. */
  ghost predicate TornFits(v: Server) {
    && (if v.cut.Uncut? then 0 else 1) + (if HoldsTorn(v.pc) then 1 else 0) + TornReports(v.core.log)
       <= (if v.core.state == Terminated then 1 else 0)
    && (v.pc.Handle? ==> v.taken > 0 || v.pc.torn)
  }

  ghost predicate Inv(s: System) {
    var v, c := s.server, s.client;
    && CoreFits(v) && LogsFit(v, c)
    && WorkerFits(v, c.sent) && ClientFits(c)
    && RoundsAgree(v.sent, c.sent) && CapturesAgree(v.sent, c.captures) && TornCaptureFits(c)
    && FramesFit(s.legacy, c.sent, c.captures)
    && DispatchLags(v.core.log, c.sent[..v.taken]) && DispatchFits(s.legacy, v, c.sent)
    && ReportsFit(v) && NamesFit(v, c.sent) && TornFits(v)
  }
}
