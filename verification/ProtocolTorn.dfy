/** What torn data is: whatever comes of a read that the closing of the socket has cut short, it is the next message
    from the other side, with zeros in place of what had not come in, or with an empty value. */
module ProtocolTorn {
  import opened Bytes
  import opened Options
  import opened Messages
  import opened Sessions
  import opened Protocol
  import opened ProtocolInvariant
  import opened ProtocolProofs
  import opened ProtocolTheorems
  import Tlv

  /** x is what m can be taken for when its read is cut short. */
  ghost predicate TornMessage(x: Message, m: Message) {
    exists got :: Tlv.TornOf(got, ToTlv(m)) && Decode(got) == Some(x)
  }

  /** ... for the next message, whichever that is. */
  ghost predicate FromNext(x: Message, next: Option<Message>) {
    next.Some? && TornMessage(x, next.value)
  }

  ghost predicate CutFromNext(how: Cut, next: Option<Message>) {
    how.CutRead? ==> next.Some? && Tlv.TornOf(how.got, ToTlv(next.value))
  }

  function Said(e: Event): Message
    requires Torn(e)
  {
    if e.ClientRegistered? then HelloMsg(e.name) else e.frame
  }

  ghost predicate ReportsTorn(log: seq<Event>, next: Option<Message>) {
    forall e <- log :: Torn(e) ==> FromNext(Said(e), next)
  }

  ghost predicate InHandTorn(v: Server, next: Option<Message>) {
    && (v.pc.Register? && v.pc.torn ==> FromNext(HelloMsg(v.pc.name), next))
    && (v.pc.Handle? && v.pc.torn ==> FromNext(v.pc.next, next))
  }

  ghost predicate ServerTorn(v: Server, next: Option<Message>) {
    CutFromNext(v.cut, next) && InHandTorn(v, next) && ReportsTorn(v.core.log, next)
  }

  ghost predicate CapturesTorn(c: Client, next: Option<Message>) {
    forall j :: 0 <= j < |c.captures| && c.captures[j].torn ==>
                  c.taken == 3 * j + 2 && FromNext(InitializeStreamMsg(c.captures[j].params), next)
  }

  ghost predicate ClientTorn(c: Client, next: Option<Message>) {
    && CutFromNext(c.cut, next) && CapturesTorn(c, next)
    && (c.cut.CutRead? && c.pc.ReadInitialize? ==> c.taken == 3 * |c.captures| + 2)
  }

  /** A settlement that is on the wire in part is that of its round. */
  ghost predicate WritingFits(v: Server, toServer: seq<Sent>) {
    v.writing.Some? && v.writing.value.InitializeStreamMsg? ==>
      |v.sent| / 3 < |Offers(toServer)| && |v.sent| % 3 == 2
      && v.writing.value.params == Negotiate(Offers(toServer)[|v.sent| / 3])
  }

  ghost predicate TornInv(s: System) {
    && ServerTorn(s.server, ToWorker(s.server, s.client))
    && ClientTorn(s.client, ToMain(s.server, s.client))
    && WritingFits(s.server, s.client.sent)
  }

  // ---- what is on the wire stays there ----

  predicate Stays(next: Option<Message>, later: Option<Message>) {
    next.Some? ==> later == next
  }

  lemma ServerTornStays(v: Server, next: Option<Message>, later: Option<Message>)
    requires ServerTorn(v, next) && Stays(next, later)
    ensures ServerTorn(v, later)
  {
  }

  lemma ClientTornStays(c: Client, next: Option<Message>, later: Option<Message>)
    requires ClientTorn(c, next) && Stays(next, later)
    ensures ClientTorn(c, later)
  {
  }

  lemma MainKeepsNext(v: Server, c: Client, coming: Option<Message>, a: ClientAct)
    requires v.taken <= |c.sent| && ClientCan(c, v.sent, coming, a)
    ensures Stays(ToWorker(v, c), ToWorker(v, ClientDoes(c, v.sent, coming, a)))
  {
  }

  lemma TimerKeepsNext(legacy: bool, v: Server, c: Client, coming: Option<Message>, t: TimerAct)
    requires v.taken <= |c.sent| && TimerCan(legacy, c, coming, t)
    ensures Stays(ToWorker(v, c), ToWorker(v, TimerDoes(legacy, c, coming, t)))
  {
  }

  lemma WorkerKeepsNext(v: Server, c: Client, toServer: seq<Sent>, w: WorkerAct)
    requires c.taken <= |v.sent| && WorkerCan(v, toServer, w)
    ensures Stays(ToMain(v, c), ToMain(WorkerDoes(v, toServer, w), c))
  {
  }

  // ---- the worker ----

  lemma {:induction false} NoTornReports(log: seq<Event>, next: Option<Message>)
    requires TornReports(log) == 0
    ensures ReportsTorn(log, next)
  {
    if log != [] {
      NoTornReports(log[..|log| - 1], next);
      assert log == log[..|log| - 1] + [log[|log| - 1]];
    }
  }

  lemma OpenIsWhole(v: Server, toServer: seq<Sent>, next: Option<Message>)
    requires CoreFits(v) && WorkerFits(v, toServer) && TornFits(v) && v.core.open
    ensures ServerTorn(v, next)
  {
    NoTornReports(v.core.log, next);
  }

  lemma ReadTornKept(v: Server, toServer: seq<Sent>, next: Option<Message>)
    requires ServerTorn(v, next) && WorkerCan(v, toServer, ReadTorn)
    ensures ServerTorn(WorkerDoes(v, toServer, ReadTorn), next)
  {
    if Decode(v.cut.got).Some? {
      assert FromNext(Decode(v.cut.got).value, next);
    }
  }

  lemma ReportedTorn(log: seq<Event>, e: Event, next: Option<Message>)
    requires ReportsTorn(log, next) && (Torn(e) ==> FromNext(Said(e), next))
    ensures ReportsTorn(log + [e], next)
  {
  }

  lemma StepKeepsTorn(v: Server, toServer: seq<Sent>, next: Option<Message>)
    requires ServerTorn(v, next) && TornFits(v) && WorkerCan(v, toServer, Step)
    ensures ServerTorn(LocalStep(v), next)
  {
    if Reports(v) {
      ReportStep(v);
      ReportIsTorn(v);
      ReportedTorn(v.core.log, Reporting(v), next);
    } else if v.pc.Ending? {
      ReportedTorn(v.core.log, SessionEnded, next);
    }
  }

  lemma RestKeepsTorn(v: Server, toServer: seq<Sent>, w: WorkerAct, next: Option<Message>)
    requires ServerTorn(v, next) && WorkerCan(v, toServer, w) && !w.Read? && !w.ReadTorn? && !w.Step?
    ensures ServerTorn(WorkerDoes(v, toServer, w), next)
  {
  }

  lemma WorkerTorn(s: System, w: WorkerAct)
    requires Inv(s) && TornInv(s) && WorkerCan(s.server, s.client.sent, w)
    ensures var v := WorkerDoes(s.server, s.client.sent, w); ServerTorn(v, ToWorker(v, s.client))
  {
    var v, toServer, next := s.server, s.client.sent, ToWorker(s.server, s.client);
    match w
    case Read =>
      WorkerKeepsInv(s, w);
      var u := WorkerDoes(v, toServer, w);
      OpenIsWhole(u, toServer, ToWorker(u, s.client));
    case ReadTorn => ReadTornKept(v, toServer, next);
    case Step => StepKeepsTorn(v, toServer, next);
    case _ => RestKeepsTorn(v, toServer, w, next);
  }

  lemma WorkerKeepsWriting(v: Server, toServer: seq<Sent>, w: WorkerAct)
    requires WorkerFits(v, toServer) && WritingFits(v, toServer) && WorkerCan(v, toServer, w)
    ensures WritingFits(WorkerDoes(v, toServer, w), toServer)
  {
  }

  lemma WorkerKeepsTornInv(s: System, w: WorkerAct)
    requires Inv(s) && TornInv(s) && Can(s, ByWorker(w))
    ensures TornInv(Does(s, ByWorker(w)))
  {
    var v := WorkerDoes(s.server, s.client.sent, w);
    WorkerTorn(s, w);
    WorkerKeepsWriting(s.server, s.client.sent, w);
    WorkerKeepsNext(s.server, s.client, s.client.sent, w);
    ClientTornStays(s.client, ToMain(s.server, s.client), ToMain(v, s.client));
  }

  // ---- the other threads of the server ----

  lemma OtherKeepsTornServer(v: Server, next: Option<Message>, o: OtherAct)
    requires ServerTorn(v, next) && OtherCan(v, next, o)
    ensures ServerTorn(OtherDoes(v, next, o), next)
  {
    if o.DispatchIt? {
      ReportedTorn(v.core.log, SessionEnded, next);
    }
  }

  lemma OtherKeepsTornInv(s: System, o: OtherAct)
    requires TornInv(s) && Can(s, ByOther(o))
    ensures TornInv(Does(s, ByOther(o)))
  {
    OtherKeepsTornServer(s.server, ToWorker(s.server, s.client), o);
  }

  // ---- the client ----

  lemma ClosingTorn(c: Client, next: Option<Message>, how: Cut)
    requires ClientFits(c) && ClientTorn(c, next) && CanClose(c, next, how)
    ensures ClientTorn(ClosedUnder(c, how), next)
  {
  }

  lemma ReadsTornKept(c: Client, toClient: seq<Message>, next: Option<Message>)
    requires TornCaptureFits(c) && ClientTorn(c, next) && ClientCan(c, toClient, next, ReadsTorn)
    ensures ClientTorn(ClientDoes(c, toClient, next, ReadsTorn), next)
  {
    if Decode(c.cut.got).Some? {
      assert FromNext(Decode(c.cut.got).value, next);
    }
  }

  lemma ReadsWhole(c: Client, m: Message, next: Option<Message>)
    requires ClientFits(c) && TornCaptureFits(c) && ClientReading(c.pc) && c.open
    ensures ClientTorn(ClientGets(c.(taken := c.taken + 1), m, false), next)
  {
  }

  lemma MainKeepsTorn(c: Client, toClient: seq<Message>, next: Option<Message>, a: ClientAct)
    requires ClientFits(c) && ClientTorn(c, next) && ClientCan(c, toClient, next, a)
    requires !a.Reads? && !a.ReadsTorn? && !a.WindowCloses?
    ensures var d := ClientDoes(c, toClient, next, a); ClientTorn(d, next) && d.taken == c.taken
  {
  }

  lemma MainTakesNone(c: Client, toClient: seq<Message>, next: Option<Message>, a: ClientAct)
    requires ClientFits(c) && TornCaptureFits(c) && ClientTorn(c, next) && ClientCan(c, toClient, next, a) && !a.Reads?
    ensures var d := ClientDoes(c, toClient, next, a); ClientTorn(d, next) && d.taken == c.taken
  {
    match a
    case ReadsTorn => ReadsTornKept(c, toClient, next);
    case WindowCloses(how) => ClosingTorn(c, next, how);
    case _ => MainKeepsTorn(c, toClient, next, a);
  }

  lemma MainTorn(v: Server, c: Client, a: ClientAct)
    requires ClientFits(c) && TornCaptureFits(c) && ClientTorn(c, ToMain(v, c)) && ClientCan(c, v.sent, ToMain(v, c), a)
    ensures var d := ClientDoes(c, v.sent, ToMain(v, c), a); ClientTorn(d, ToMain(v, d))
  {
    if a.Reads? {
      ReadsWhole(c, v.sent[c.taken], ToMain(v, ClientDoes(c, v.sent, ToMain(v, c), a)));
    } else {
      MainTakesNone(c, v.sent, ToMain(v, c), a);
    }
  }

  lemma TimerTorn(legacy: bool, c: Client, next: Option<Message>, t: TimerAct)
    requires ClientFits(c) && ClientTorn(c, next) && TimerCan(legacy, c, next, t)
    ensures var d := TimerDoes(legacy, c, next, t); ClientTorn(d, next) && d.taken == c.taken
  {
    if t.FailsToSend? && t.closes {
      ClosingTorn(c, next, t.how);
    }
  }

  lemma GrowthKeepsWriting(v: Server, toServer: seq<Sent>, later: seq<Sent>)
    requires WritingFits(v, toServer) && (later == toServer || exists e :: later == toServer + [e])
    ensures WritingFits(v, later)
  {
    if later != toServer {
      var e :| later == toServer + [e];
      OffersAppend(toServer, e);
    }
  }

  lemma ClientKeepsTornInv(s: System, a: ClientAct)
    requires Inv(s) && TornInv(s) && Can(s, ByClient(a))
    ensures TornInv(Does(s, ByClient(a)))
  {
    var v, c, coming := s.server, s.client, ToMain(s.server, s.client);
    var d := ClientDoes(c, v.sent, coming, a);
    MainTorn(v, c, a);
    ClientKeepsFrames(s.legacy, v, c, coming, a);
    GrowthKeepsWriting(v, c.sent, d.sent);
    MainKeepsNext(v, c, coming, a);
    ServerTornStays(v, ToWorker(v, c), ToWorker(v, d));
  }

  lemma TimerKeepsTornInv(s: System, t: TimerAct)
    requires Inv(s) && TornInv(s) && Can(s, ByTimer(t))
    ensures TornInv(Does(s, ByTimer(t)))
  {
    var v, c, coming := s.server, s.client, ToMain(s.server, s.client);
    var d := TimerDoes(s.legacy, c, coming, t);
    TimerTorn(s.legacy, c, coming, t);
    TimerKeeps(s.legacy, v, c, coming, t);
    GrowthKeepsWriting(v, c.sent, d.sent);
    TimerKeepsNext(s.legacy, v, c, coming, t);
    ServerTornStays(v, ToWorker(v, c), ToWorker(v, d));
  }

  lemma DoesKeepsTornInv(s: System, a: Action)
    requires Inv(s) && TornInv(s) && Can(s, a)
    ensures TornInv(Does(s, a))
  {
    match a
    case ByWorker(w) => WorkerKeepsTornInv(s, w);
    case ByOther(o) => OtherKeepsTornInv(s, o);
    case ByClient(c) => ClientKeepsTornInv(s, c);
    case ByTimer(t) => TimerKeepsTornInv(s, t);
  }

  lemma {:induction false} RunKeepsTornInv(s: System, run: seq<Action>)
    requires Inv(s) && TornInv(s) && IsRun(s, run)
    ensures TornInv(After(s, run))
    decreases |run|
  {
    if run != [] {
      DoesKeepsInv(s, run[0]);
      DoesKeepsTornInv(s, run[0]);
      RunKeepsTornInv(Does(s, run[0]), run[1..]);
    }
  }

  // ---- the theorems ----

  /** Every torn report, of a name or a frame, is of the next message from the client after those the worker has read,
      as far as that had come in. */
  lemma TornReportsAreOfNext(legacy: bool, run: seq<Action>, e: Event)
    requires IsRun(Init(legacy), run) && e in After(Init(legacy), run).server.core.log && Torn(e)
    ensures var s := After(Init(legacy), run); FromNext(Said(e), ToWorker(s.server, s.client))
  {
    InitHolds(legacy);
    RunKeepsTornInv(Init(legacy), run);
  }

  /** Every torn capture, the last, is of the settlement of its own round, as far as that had come in. */
  lemma TornCapturesAreOfSettlement(legacy: bool, run: seq<Action>, j: nat)
    requires IsRun(Init(legacy), run)
    requires var c := After(Init(legacy), run).client; j < |c.captures| && c.captures[j].torn
    ensures var s := After(Init(legacy), run);
            && j < |Offers(s.client.sent)|
            && TornMessage(InitializeStreamMsg(s.client.captures[j].params),
                           InitializeStreamMsg(Negotiate(Offers(s.client.sent)[j])))
  {
    InitHolds(legacy);
    RunKeepsTornInv(Init(legacy), run);
    Reachable(legacy, run);
    var s := After(Init(legacy), run);
    SettlementIsNext(s.server, s.client, j);
  }

  lemma SettlementIsNext(v: Server, c: Client, j: nat)
    requires ServerLog(v.sent) && RoundsAgree(v.sent, c.sent) && WritingFits(v, c.sent)
    requires j < |c.captures| && c.captures[j].torn && CapturesTorn(c, ToMain(v, c)) && c.taken <= |v.sent|
    ensures j < |Offers(c.sent)|
    ensures TornMessage(InitializeStreamMsg(c.captures[j].params), InitializeStreamMsg(Negotiate(Offers(c.sent)[j])))
  {
    var x, m := InitializeStreamMsg(c.captures[j].params), ToMain(v, c).value;
    TornKeepsTag(x, m);
    if c.taken < |v.sent| {
      assert v.sent[3 * j + 2] == InitializeStreamMsg(Negotiate(Offers(c.sent)[j]));
    }
  }

  lemma TornKeepsTag(x: Message, m: Message)
    requires TornMessage(x, m)
    ensures ToTlv(x).tag == ToTlv(m).tag
  {
    var got :| Tlv.TornOf(got, ToTlv(m)) && Decode(got) == Some(x);
    DecodeKeepsTag(got);
  }
}
