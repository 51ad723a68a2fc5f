/** What can still come of a session once a socket is closed, and when exactly. */
module ProtocolEndings {
  import opened Bytes
  import opened Options
  import opened Resolution
  import opened Messages
  import opened Sessions
  import opened Protocol
  import opened ProtocolInvariant
  import opened ProtocolStreams
  import opened ProtocolTheorems
  import opened ProtocolTraps
  import Tlv

  // ---- reports after SessionEnded ----

  /** The worker's read has been cut short, but still returns what the worker reports. */
  predicate ReturnsReport(v: Server) {
    && v.cut.CutRead?
    && var got := Decode(v.cut.got);
       got.Some? && ((v.pc.ReadHello? && got.value.HelloMsg?) || (v.pc.ReadFrame? && IsFrame(got.value)))
  }

  /** The worker has a report in hand, or a read to come back with one. */
  predicate WillReport(v: Server) {
    v.pc.Register? || (v.pc.Handle? && IsFrame(v.pc.next)) || ReturnsReport(v)
  }

  ghost predicate Over(v: Server) {
    SessionEnded in v.core.log && v.core.state == Terminated && !v.core.open
  }

  /** A worker that will not report never does, whatever anyone does. */
  lemma QuietWorker(v: Server, toServer: seq<Sent>, w: WorkerAct)
    requires Over(v) && !WillReport(v) && WorkerCan(v, toServer, w)
    ensures var u := WorkerDoes(v, toServer, w); Over(u) && !WillReport(u) && Late(u.core.log) == Late(v.core.log)
  {
    LateAppend(v.core.log, SessionEnded);
  }

  lemma QuietOther(v: Server, coming: Option<Message>, o: OtherAct)
    requires Over(v) && !WillReport(v) && OtherCan(v, coming, o)
    ensures var u := OtherDoes(v, coming, o);
            Over(u) && !WillReport(u) && Late(u.core.log) == Late(v.core.log)
  {
    LateAppend(v.core.log, SessionEnded);
  }

  lemma {:induction false} QuietForGood(s: System, run: seq<Action>)
    requires Over(s.server) && !WillReport(s.server) && IsRun(s, run)
    ensures Late(After(s, run).server.core.log) == Late(s.server.core.log)
    decreases |run|
  {
    if run != [] {
      match run[0] {
        case ByWorker(w) => QuietWorker(s.server, s.client.sent, w);
        case ByOther(o) => QuietOther(s.server, ToWorker(s.server, s.client), o);
        case ByClient(_) =>
        case ByTimer(_) =>
      }
      QuietForGood(Does(s, run[0]), run[1..]);
    }
  }

  /** The worker comes to hold a report, if it does not hold it yet. */
  lemma ReportInHand(s: System) returns (run: seq<Action>, t: System)
    requires WillReport(s.server) && Over(s.server)
    ensures IsRun(s, run) && After(s, run) == t && t.server.core == s.server.core
    ensures t.server.pc.Register? || (t.server.pc.Handle? && IsFrame(t.server.pc.next))
  {
    run, t := [], s;
    if s.server.pc.ReadHello? || s.server.pc.ReadFrame? {
      var a := ByWorker(ReadTorn);
      RunAppend(s, [], a);
      run, t := [] + [a], Does(s, a);
    }
  }

  lemma ReportsLate(s: System) returns (run: seq<Action>)
    requires WillReport(s.server) && Over(s.server)
    ensures IsRun(s, run) && Late(After(s, run).server.core.log) > Late(s.server.core.log)
  {
    var t;
    run, t := ReportInHand(s);
    RunAppend(s, run, ByWorker(Step));
    var log := t.server.core.log;
    var after := LocalStep(t.server).core.log;
    assert after == log + [after[|log|]];
    LateAppend(log, after[|log|]);
    run := run + [ByWorker(Step)];
  }

  /** SessionEnded stays the last thing reported of an ended session exactly when, in the state it is in, its worker
      neither holds a name or a frame it has read, nor is in a read that the closing has cut short so that it returns
      one. */
  lemma LateReportIff(legacy: bool, run: seq<Action>)
    requires IsRun(Init(legacy), run) && SessionEnded in After(Init(legacy), run).server.core.log
    ensures var s := After(Init(legacy), run);
            (exists more :: IsRun(s, more) && Late(After(s, more).server.core.log) > Late(s.server.core.log))
            <==> WillReport(s.server)
  {
    SessionLog(legacy, run);
    var s := After(Init(legacy), run);
    if WillReport(s.server) {
      var more := ReportsLate(s);
    } else {
      forall more | IsRun(s, more) ensures Late(After(s, more).server.core.log) == Late(s.server.core.log) {
        QuietForGood(s, more);
      }
    }
  }

  lemma NameSent(name: seq<byte>) returns (run: seq<Action>, s: System)
    ensures IsRun(Init(false), run) && After(Init(false), run) == s
    ensures s == Init(false).(client := Client(ReadOk, true, Uncut, true, true, 0, [Sent(HelloMsg(name), 0)], [], Off,
                                               false))
  {
    run, s := Go([], Init(false), ByClient(SendsHello(name)));
  }

  /** The session is terminated by another thread, in this way. */
  lemma EndsNow(before: seq<Action>, s: System, how: Cut) returns (run: seq<Action>, t: System)
    requires IsRun(Init(false), before) && After(Init(false), before) == s
    requires s.server.core == NEW && Can(s, ByOther(TerminateIt(how))) && !s.server.pc.Ending?
    ensures IsRun(Init(false), run) && After(Init(false), run) == t
    ensures t == s.(server := s.server.(core := Core(Terminated, false, 0, [SessionStarted, SessionEnded]),
                                        cut := if how.Uncut? then s.server.cut else how))
  {
    run, t := Go(before, s, ByOther(TerminateIt(how)));
    run, t := Go(run, t, ByOther(DispatchIt));
    assert NEW.log + [SessionEnded] == [SessionStarted, SessionEnded];
  }

  /** The client's name has been read, the session is terminated, and only then is the name reported. */
  lemma LateReportIsReached(name: seq<byte>)
    ensures exists run :: IsRun(Init(false), run)
                          && After(Init(false), run).server.core.log
                             == [SessionStarted, SessionEnded, ClientRegistered(name, false)]
  {
    var run, s := NameSent(name);
    run, s := Go(run, s, ByWorker(Read));
    run, s := EndsNow(run, s, Uncut);
    run, s := Go(run, s, ByWorker(Step));
    assert s.server.core.log == [SessionStarted, SessionEnded] + [ClientRegistered(name, false)];
  }

  /** The session is terminated when one byte of a name of two has come in. The name is reported all the same, the other
      byte being 0. */
  lemma TornReportIsReached(a: byte, b: byte)
    ensures exists run :: IsRun(Init(false), run)
                          && After(Init(false), run).server.core.log
                             == [SessionStarted, SessionEnded, ClientRegistered([a, 0], true)]
                          && After(Init(false), run).client.sent == [Sent(HelloMsg([a, b]), 0)]
  {
    var torn := Tlv.TlvMessage(Tlv.Hello, [a, 0]);
    assert Tlv.Padded([a, 0], [a, b], 1);
    var run, s := NameSent([a, b]);
    assert CanCut(CutRead(torn), true, false, ToWorker(s.server, s.client));
    run, s := EndsNow(run, s, CutRead(torn));
    run, s := Go(run, s, ByWorker(ReadTorn));
    run, s := Go(run, s, ByWorker(Step));
    assert s.server.core.log == [SessionStarted, SessionEnded] + [ClientRegistered([a, 0], true)];
  }

  // ---- captures after the client's socket is closed ----

  /** The client awaits the settlement in a read that the closing of its socket has cut short, but that still returns
      one to capture with. */
  predicate WillCapture(c: Client) {
    && c.pc.ReadInitialize? && c.cut.CutRead?
    && var got := Decode(c.cut.got);
       got.Some? && got.value.InitializeStreamMsg? && got.value.params.frameRate != 0
  }

  lemma MainCapturesNone(c: Client, toClient: seq<Message>, coming: Option<Message>, a: ClientAct)
    requires !c.open && !WillCapture(c) && ClientCan(c, toClient, coming, a)
    ensures var d := ClientDoes(c, toClient, coming, a); !d.open && !WillCapture(d) && d.captures == c.captures
  {
  }

  lemma TimerCapturesNone(legacy: bool, c: Client, coming: Option<Message>, t: TimerAct)
    requires !c.open && !WillCapture(c) && TimerCan(legacy, c, coming, t)
    ensures var d := TimerDoes(legacy, c, coming, t); !d.open && !WillCapture(d) && d.captures == c.captures
  {
  }

  lemma NoMoreCaptures(s: System, a: Action)
    requires !s.client.open && !WillCapture(s.client) && Can(s, a)
    ensures var c := Does(s, a).client; !c.open && !WillCapture(c) && c.captures == s.client.captures
  {
    var coming := ToMain(s.server, s.client);
    match a
    case ByClient(c) => MainCapturesNone(s.client, s.server.sent, coming, c);
    case ByTimer(t) => TimerCapturesNone(s.legacy, s.client, coming, t);
    case _ =>
  }

  lemma {:induction false} NoCapturesForGood(s: System, run: seq<Action>)
    requires !s.client.open && !WillCapture(s.client) && IsRun(s, run)
    ensures After(s, run).client.captures == s.client.captures
    decreases |run|
  {
    if run != [] {
      NoMoreCaptures(s, run[0]);
      NoCapturesForGood(Does(s, run[0]), run[1..]);
    }
  }

  /** A client whose socket is closed starts another round exactly when it awaits the settlement in a read that the
      closing cut short so that it still returns one, of a frame rate other than 0. */
  lemma TornCaptureIff(s: System)
    requires !s.client.open
    ensures (exists run :: IsRun(s, run) && After(s, run).client.captures != s.client.captures)
            <==> WillCapture(s.client)
  {
    if WillCapture(s.client) {
      var a := ByClient(ReadsTorn);
      RunAppend(s, [], a);
      assert |After(s, [] + [a]).client.captures| == |s.client.captures| + 1;
    } else {
      forall run | IsRun(s, run) ensures After(s, run).client.captures == s.client.captures {
        NoCapturesForGood(s, run);
      }
    }
  }

  /** The settlement of the first round with the frame rate read, and no more than that. */
  const HALF_READ := Params(OFFER.frameRate, ScreenResolution(0, 0))

  lemma HalfRead() returns (torn: Tlv.TlvMessage)
    ensures Tlv.TornOf(torn, ToTlv(InitializeStreamMsg(OFFER))) && torn.tag == Tlv.InitializeStream
    ensures Decode(torn) == Some(InitializeStreamMsg(HALF_READ))
  {
    torn := ToTlv(InitializeStreamMsg(HALF_READ));
    DecodeOfEncode(InitializeStreamMsg(HALF_READ));
    NoughtField();
    assert Tlv.Padded(ParamsPayload(HALF_READ), ParamsPayload(OFFER), 4);
  }

  lemma NoughtField()
    ensures Field(0) + Field(0) == Tlv.Zeros(8)
  {
    assert BigEndian(0, 2) == [0, 0];
    assert BigEndian(0, 4) == [0, 0, 0, 0];
  }

  /** The server has answered the first offer; the client's window is closed when four bytes of the answer's value have
      come in, and the client captures at a resolution of 0 by 0, which nobody offered. */
  lemma TornCaptureIsReached()
    ensures exists run :: IsRun(Init(false), run)
                          && var s := After(Init(false), run);
                             && s.client.captures == [Capture(HALF_READ, true)]
                             && s.server.sent == REPLIES && s.server.core.open
  {
    var torn := HalfRead();
    var run, s := Answered1();
    run, s := Go(run, s, ByClient(WindowCloses(CutRead(torn))));
    run, s := Go(run, s, ByClient(ReadsTorn));
  }
}
