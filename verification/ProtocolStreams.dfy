/** What the protocol makes possible: any session that a user could want, in a run without a failure. */
module ProtocolStreams {
  import opened Bytes
  import opened Messages
  import opened Options
  import opened Sessions
  import opened Protocol
  import opened ProtocolInvariant

  // ---- longer runs ----

  lemma {:induction false} RunAppend(s: System, run: seq<Action>, a: Action)
    requires IsRun(s, run) && Can(After(s, run), a)
    ensures IsRun(s, run + [a]) && After(s, run + [a]) == Does(After(s, run), a)
    decreases |run|
  {
    if run == [] {
      assert [a][1..] == [];
      assert IsRun(Does(s, a), []);
      assert [] + [a] == [a];
    } else {
      RunAppend(Does(s, run[0]), run[1..], a);
      assert (run + [a])[1..] == run[1..] + [a];
    }
  }

  lemma Go(run: seq<Action>, s: System, a: Action) returns (longer: seq<Action>, t: System)
    requires IsRun(Init(false), run) && After(Init(false), run) == s && Can(s, a)
    ensures IsRun(Init(false), longer) && After(Init(false), longer) == t && t == Does(s, a)
  {
    RunAppend(Init(false), run, a);
    return run + [a], Does(s, a);
  }

  lemma Registers(name: seq<byte>) returns (run: seq<Action>, s: System)
    ensures IsRun(Init(false), run) && After(Init(false), run) == s
    ensures s == System(false,
                        Server(Core(Idle, true, 0, LogAfter(name, [])), CheckTerminated, Uncut, false, 1, [OkMsg]),
                        Client(ReadOk, true, Uncut, true, true, 0, SentAfter(name, []), [], Off, false))
  {
    run, s := [], Init(false);
    run, s := Go(run, s, ByClient(SendsHello(name)));
    run, s := Go(run, s, ByWorker(Read));
    run, s := Go(run, s, ByWorker(Step));
    run, s := Go(run, s, ByWorker(Send));
  }

  // ---- rounds ----

  /** One round of streaming: what the client offers, and the packets it then captures. */
  datatype Round = Round(offer: Params, frames: seq<Message>)

  predicate CanStream(r: Round) {
    r.offer.frameRate != 0 && forall m <- r.frames :: m.H264PacketMsg? && SizedAs(m, r.offer)
  }

  /** Between two rounds, with both sides idle and all messages taken. */
  function Rest(log: seq<Event>, replies: seq<Message>, sent: seq<Sent>, captures: seq<Capture>, stop: bool): System {
    System(false, Server(Core(Idle, true, 0, log), CheckTerminated, Uncut, false, |sent|, replies),
                  Client(ReadMessage, true, Uncut, true, true, |replies|, sent, captures, Off, stop))
  }

  /** Within a round, with all messages taken. */
  function Live(log: seq<Event>, replies: seq<Message>, sent: seq<Sent>, captures: seq<Capture>): System {
    System(false, Server(Core(Streaming, true, 0, log), CheckStreaming, Uncut, false, |sent|, replies),
                  Client(AwaitEnd, true, Uncut, true, true, |replies|, sent, captures, Checking, false))
  }

  function Asked(replies: seq<Message>): seq<Message> {
    replies + [GetStreamParamsMsg]
  }

  function Answered(sent: seq<Sent>, p: Params): seq<Sent> {
    sent + [Sent(StreamParamsMsg(p), LastRound(sent) + 1)]
  }

  function Initialized(replies: seq<Message>, p: Params): seq<Message> {
    Asked(replies) + [InitializeStreamMsg(Negotiate(p))]
  }

  lemma AsksParams(run: seq<Action>, log: seq<Event>, replies: seq<Message>, sent: seq<Sent>, captures: seq<Capture>,
               stop: bool)
    returns (longer: seq<Action>, s: System)
    requires IsRun(Init(false), run) && After(Init(false), run) == Rest(log, replies, sent, captures, stop)
    ensures IsRun(Init(false), longer) && After(Init(false), longer) == s
    ensures s == System(false, Server(Core(Streaming, true, 0, log), Drain, Uncut, false, |sent|, Asked(replies)),
                               Client(ReadMessage, true, Uncut, true, true, |replies|, sent, captures, Off, stop))
  {
    longer, s := Go(run, Rest(log, replies, sent, captures, stop), ByWorker(Step));
    longer, s := Go(longer, s, ByOther(StartIt));
    longer, s := Go(longer, s, ByWorker(Step));
    longer, s := Go(longer, s, ByWorker(Send));
  }

  lemma Offering(run: seq<Action>, log: seq<Event>, replies: seq<Message>, sent: seq<Sent>, captures: seq<Capture>,
                 stop: bool, p: Params)
    returns (longer: seq<Action>, s: System)
    requires IsRun(Init(false), run) && After(Init(false), run) == Rest(log, replies, sent, captures, stop)
    ensures IsRun(Init(false), longer) && After(Init(false), longer) == s
    ensures s == System(false,
                        Server(Core(Streaming, true, 0, log), Drain, Uncut, false, |sent|, Asked(replies)),
                        Client(ReadInitialize, true, Uncut, true, true, |replies| + 1, Answered(sent, p), captures, Off,
                               stop))
  {
    longer, s := AsksParams(run, log, replies, sent, captures, stop);
    longer, s := Go(longer, s, ByClient(Reads));
    longer, s := Go(longer, s, ByClient(SendsParams(p)));
  }

  lemma Opening(run: seq<Action>, log: seq<Event>, replies: seq<Message>, sent: seq<Sent>, captures: seq<Capture>,
                stop: bool, p: Params)
    returns (longer: seq<Action>)
    requires IsRun(Init(false), run) && After(Init(false), run) == Rest(log, replies, sent, captures, stop)
    requires p.frameRate != 0
    ensures IsRun(Init(false), longer)
    ensures After(Init(false), longer)
            == Live(log, Initialized(replies, p), Answered(sent, p), captures + [Capture(Negotiate(p), false)])
  {
    var s;
    longer, s := Offering(run, log, replies, sent, captures, stop, p);
    longer, s := Go(longer, s, ByWorker(Read));
    longer, s := Go(longer, s, ByWorker(Step));
    longer, s := Go(longer, s, ByWorker(Send));
    longer, s := Go(longer, s, ByClient(Reads));
  }

  lemma FrameSent(run: seq<Action>, log: seq<Event>, replies: seq<Message>, sent: seq<Sent>, captures: seq<Capture>,
                  m: Message)
    returns (longer: seq<Action>, s: System)
    requires IsRun(Init(false), run) && After(Init(false), run) == Live(log, replies, sent, captures)
    requires captures != [] && m.H264PacketMsg? && SizedAs(m, captures[|captures| - 1].params)
    ensures IsRun(Init(false), longer) && After(Init(false), longer) == s
    ensures var t := Live(log, replies, sent + [Sent(m, LastRound(sent))], captures);
            s == Live(log, replies, sent, captures).(client := t.client)
  {
    s := Live(log, replies, sent, captures);
    longer, s := Go(run, s, ByTimer(Checks));
    longer, s := Go(longer, s, ByTimer(Sends(m)));
  }

  lemma FrameTaken(run: seq<Action>, log: seq<Event>, replies: seq<Message>, sent: seq<Sent>, captures: seq<Capture>,
                   m: Message)
    returns (longer: seq<Action>, s: System)
    requires IsRun(Init(false), run) && After(Init(false), run) == Live(log, replies, sent, captures)
    requires captures != [] && m.H264PacketMsg? && SizedAs(m, captures[|captures| - 1].params)
    ensures IsRun(Init(false), longer) && After(Init(false), longer) == s
    ensures var t := Live(log, replies, sent + [Sent(m, LastRound(sent))], captures);
            s == t.(server := t.server.(pc := Handle(m, false)))
  {
    longer, s := FrameSent(run, log, replies, sent, captures, m);
    longer, s := Go(longer, s, ByWorker(Step));
    longer, s := Go(longer, s, ByWorker(Read));
  }

  lemma OneFrame(run: seq<Action>, log: seq<Event>, replies: seq<Message>, sent: seq<Sent>, captures: seq<Capture>,
                 m: Message)
    returns (longer: seq<Action>)
    requires IsRun(Init(false), run) && After(Init(false), run) == Live(log, replies, sent, captures)
    requires captures != [] && m.H264PacketMsg? && SizedAs(m, captures[|captures| - 1].params)
    ensures IsRun(Init(false), longer)
    ensures After(Init(false), longer) == Live(log + [FrameReceived(m, (|replies| + 1) / 3, Some(|sent|))], replies,
                                               sent + [Sent(m, LastRound(sent))], captures)
  {
    var s;
    longer, s := FrameTaken(run, log, replies, sent, captures, m);
    longer, s := Go(longer, s, ByWorker(Step));
  }

  lemma Closing(run: seq<Action>, log: seq<Event>, replies: seq<Message>, sent: seq<Sent>, captures: seq<Capture>)
    returns (longer: seq<Action>)
    requires IsRun(Init(false), run) && After(Init(false), run) == Live(log, replies, sent, captures)
    ensures IsRun(Init(false), longer)
    ensures After(Init(false), longer) == Rest(log, replies + [EndStreamMsg], sent, captures, true)
  {
    var s := Live(log, replies, sent, captures);
    longer, s := Go(run, s, ByOther(StopIt));
    longer, s := Go(longer, s, ByWorker(Step));
    longer, s := Go(longer, s, ByWorker(Send));
    longer, s := Go(longer, s, ByClient(Reads));
    longer, s := Go(longer, s, ByTimer(Checks));
    longer, s := Go(longer, s, ByClient(Joins));
  }

  // ---- all the frames of a round, and all the rounds of a session ----

  function Reports(frames: seq<Message>, round: nat, at: nat): seq<Event> {
    if frames == [] then []
    else
      var n := |frames| - 1;
      Reports(frames[..n], round, at) + [FrameReceived(frames[n], round, Some(at + n))]
  }

  function SentIn(frames: seq<Message>, round: nat): (r: seq<Sent>)
    ensures |r| == |frames|
  {
    if frames == [] then [] else SentIn(frames[..|frames| - 1], round) + [Sent(frames[|frames| - 1], round)]
  }

  lemma {:induction false} SameRound(sent: seq<Sent>, frames: seq<Message>)
    ensures LastRound(sent + SentIn(frames, LastRound(sent))) == LastRound(sent)
  {
    if frames == [] {
      assert sent + [] == sent;
    }
  }

  lemma {:induction false} AllFrames(run: seq<Action>, log: seq<Event>, replies: seq<Message>, sent: seq<Sent>,
                                     captures: seq<Capture>, frames: seq<Message>)
    returns (longer: seq<Action>)
    requires IsRun(Init(false), run) && After(Init(false), run) == Live(log, replies, sent, captures)
    requires captures != [] && forall m <- frames :: m.H264PacketMsg? && SizedAs(m, captures[|captures| - 1].params)
    ensures IsRun(Init(false), longer)
    ensures After(Init(false), longer) == Live(log + Reports(frames, (|replies| + 1) / 3, |sent|), replies,
                                               sent + SentIn(frames, LastRound(sent)), captures)
    decreases |frames|
  {
    if frames == [] {
      assert log + [] == log && sent + [] == sent;
      return run;
    }
    var n := |frames| - 1;
    longer := AllFrames(run, log, replies, sent, captures, frames[..n]);
    SameRound(sent, frames[..n]);
    longer := OneFrame(longer, log + Reports(frames[..n], (|replies| + 1) / 3, |sent|), replies,
                       sent + SentIn(frames[..n], LastRound(sent)), captures, frames[n]);
    Associate(log, Reports(frames[..n], (|replies| + 1) / 3, |sent|),
              [FrameReceived(frames[n], (|replies| + 1) / 3, Some(|sent| + n))]);
    Associate(sent, SentIn(frames[..n], LastRound(sent)), [Sent(frames[n], LastRound(sent))]);
  }

  lemma Associate<T>(a: seq<T>, b: seq<T>, c: seq<T>)
    ensures (a + b) + c == a + (b + c)
  {
  }

  function LogAfter(name: seq<byte>, rounds: seq<Round>): seq<Event> {
    if rounds == [] then [SessionStarted, ClientRegistered(name, false)]
    else
      var n := |rounds| - 1;
      LogAfter(name, rounds[..n]) + Reports(rounds[n].frames, n + 1, |SentAfter(name, rounds[..n])| + 1)
  }

  function SentAfter(name: seq<byte>, rounds: seq<Round>): (sent: seq<Sent>)
    ensures LastRound(sent) == |rounds|
  {
    if rounds == [] then [Sent(HelloMsg(name), 0)]
    else
      var n := |rounds| - 1;
      var asked := SentAfter(name, rounds[..n]) + [Sent(StreamParamsMsg(rounds[n].offer), n + 1)];
      SameRound(asked, rounds[n].frames);
      asked + SentIn(rounds[n].frames, n + 1)
  }

  function RepliesAfter(rounds: seq<Round>): (replies: seq<Message>)
    ensures |replies| == 3 * |rounds| + 1
  {
    if rounds == [] then [OkMsg]
    else
      var n := |rounds| - 1;
      Initialized(RepliesAfter(rounds[..n]), rounds[n].offer) + [EndStreamMsg]
  }

  function CapturesAfter(rounds: seq<Round>): seq<Capture> {
    if rounds == [] then []
    else CapturesAfter(rounds[..|rounds| - 1]) + [Capture(Negotiate(rounds[|rounds| - 1].offer), false)]
  }

  /** After round g. */
  function RoundDone(log: seq<Event>, replies: seq<Message>, sent: seq<Sent>, captures: seq<Capture>, r: Round,
                     g: nat): System
  {
    Rest(log + Reports(r.frames, g, |sent| + 1),
         Initialized(replies, r.offer) + [EndStreamMsg],
         Answered(sent, r.offer) + SentIn(r.frames, g),
         captures + [Capture(Negotiate(r.offer), false)],
         true)
  }

  lemma OneRound(run: seq<Action>, log: seq<Event>, replies: seq<Message>, sent: seq<Sent>, captures: seq<Capture>,
                 stop: bool, r: Round, g: nat)
    returns (longer: seq<Action>)
    requires IsRun(Init(false), run) && After(Init(false), run) == Rest(log, replies, sent, captures, stop)
    requires CanStream(r) && (|replies| + 3) / 3 == g == LastRound(sent) + 1
    ensures IsRun(Init(false), longer) && After(Init(false), longer) == RoundDone(log, replies, sent, captures, r, g)
  {
    var replied, answered := Initialized(replies, r.offer), Answered(sent, r.offer);
    var captured := captures + [Capture(Negotiate(r.offer), false)];
    longer := Opening(run, log, replies, sent, captures, stop, r.offer);
    longer := AllFrames(longer, log, replied, answered, captured, r.frames);
    longer := Closing(longer, log + Reports(r.frames, g, |sent| + 1), replied, answered + SentIn(r.frames, g),
                      captured);
  }

  function StateAfter(name: seq<byte>, rounds: seq<Round>): System {
    Rest(LogAfter(name, rounds), RepliesAfter(rounds), SentAfter(name, rounds), CapturesAfter(rounds), rounds != [])
  }

  lemma Greeting(name: seq<byte>) returns (run: seq<Action>)
    ensures IsRun(Init(false), run) && After(Init(false), run) == StateAfter(name, [])
  {
    var s;
    run, s := Registers(name);
    run, s := Go(run, s, ByClient(Reads));
  }

  lemma InitOfAppend<T>(s: seq<T>, e: T)
    ensures (s + [e])[..|s + [e]| - 1] == s
  {
  }

  lemma LogGrows(name: seq<byte>, before: seq<Round>, r: Round)
    ensures LogAfter(name, before + [r])
            == LogAfter(name, before) + Reports(r.frames, |before| + 1, |SentAfter(name, before)| + 1)
  {
    InitOfAppend(before, r);
  }

  lemma SentGrows(name: seq<byte>, before: seq<Round>, r: Round)
    ensures SentAfter(name, before + [r]) == Answered(SentAfter(name, before), r.offer) + SentIn(r.frames, |before| + 1)
  {
    InitOfAppend(before, r);
  }

  lemma RepliesGrow(before: seq<Round>, r: Round)
    ensures RepliesAfter(before + [r]) == Initialized(RepliesAfter(before), r.offer) + [EndStreamMsg]
  {
    InitOfAppend(before, r);
  }

  lemma CapturesGrow(before: seq<Round>, r: Round)
    ensures CapturesAfter(before + [r]) == CapturesAfter(before) + [Capture(Negotiate(r.offer), false)]
  {
    InitOfAppend(before, r);
  }

  lemma StateGrows(name: seq<byte>, before: seq<Round>, r: Round)
    ensures StateAfter(name, before + [r])
            == RoundDone(LogAfter(name, before), RepliesAfter(before), SentAfter(name, before), CapturesAfter(before),
                         r, |before| + 1)
  {
    LogGrows(name, before, r);
    SentGrows(name, before, r);
    RepliesGrow(before, r);
    CapturesGrow(before, r);
  }

  lemma NextRound(run: seq<Action>, name: seq<byte>, before: seq<Round>, r: Round) returns (longer: seq<Action>)
    requires IsRun(Init(false), run) && After(Init(false), run) == StateAfter(name, before)
    requires CanStream(r)
    ensures IsRun(Init(false), longer) && After(Init(false), longer) == StateAfter(name, before + [r])
  {
    longer := OneRound(run, LogAfter(name, before), RepliesAfter(before), SentAfter(name, before),
                       CapturesAfter(before), before != [], r, |before| + 1);
    StateGrows(name, before, r);
  }

  lemma {:induction false} AllRounds(name: seq<byte>, rounds: seq<Round>) returns (run: seq<Action>)
    requires forall r <- rounds :: CanStream(r)
    ensures IsRun(Init(false), run) && After(Init(false), run) == StateAfter(name, rounds)
  {
    if rounds == [] {
      run := Greeting(name);
    } else {
      var before, r := rounds[..|rounds| - 1], rounds[|rounds| - 1];
      assert rounds == before + [r];
      run := AllRounds(name, before);
      run := NextRound(run, name, before, r);
    }
  }

  // ---- what has come of it ----

  lemma {:induction false} DispatchedOf(log: seq<Event>, frames: seq<Message>, round: nat, at: nat, k: nat)
    ensures FramesDispatched(log + Reports(frames, round, at), k)
            == if k == round then FramesDispatched(log, k) + frames else FramesDispatched(log, k)
    decreases |frames|
  {
    if frames == [] {
      assert log + [] == log;
    } else {
      var n := |frames| - 1;
      DispatchedOf(log, frames[..n], round, at, k);
      DispatchedStep(log, Reports(frames[..n], round, at), frames[n], round, at + n, k);
      Associate(FramesDispatched(log, k), frames[..n], [frames[n]]);
      assert frames[..n] + [frames[n]] == frames;
    }
  }

  lemma DispatchedStep(log: seq<Event>, reports: seq<Event>, m: Message, round: nat, place: nat, k: nat)
    ensures FramesDispatched(log + (reports + [FrameReceived(m, round, Some(place))]), k)
            == FramesDispatched(log + reports, k) + if k == round then [m] else []
  {
    var e := FrameReceived(m, round, Some(place));
    Associate(log, reports, [e]);
    FramesDispatchedAppend(log + reports, e, k);
  }

  lemma {:induction false} DispatchedAfter(name: seq<byte>, rounds: seq<Round>, k: nat)
    requires k > 0
    ensures FramesDispatched(LogAfter(name, rounds), k) == if k <= |rounds| then rounds[k - 1].frames else []
  {
    if rounds == [] {
      assert FramesDispatched([SessionStarted], k) == [];
      assert LogAfter(name, [])[..1] == [SessionStarted];
    } else {
      var n := |rounds| - 1;
      DispatchedAfter(name, rounds[..n], k);
      DispatchedOf(LogAfter(name, rounds[..n]), rounds[n].frames, n + 1, |SentAfter(name, rounds[..n])| + 1, k);
    }
  }

  /** For any client name and any list of rounds, each with an offer of a frame rate other than 0 and any packets of the
      size offered, there is a run in which the session registers that name and dispatches exactly those packets round
      by round, with the session still up and ready for another round. */
  lemma EverySessionIsPossible(name: seq<byte>, rounds: seq<Round>)
    requires forall r <- rounds :: CanStream(r)
    ensures exists run :: IsRun(Init(false), run)
                          && var s := After(Init(false), run);
                             && s.server.core.open && s.server.core.state == Idle && !s.server.inDead
                             && ClientRegistered(name, false) in s.server.core.log
                             && s.client.captures == CapturesAfter(rounds)
                             && forall k :: 0 < k <= |rounds| ==>
                                              FramesDispatched(s.server.core.log, k) == rounds[k - 1].frames
  {
    var run := AllRounds(name, rounds);
    NameStays(name, rounds);
    forall k | 0 < k <= |rounds|
      ensures FramesDispatched(LogAfter(name, rounds), k) == rounds[k - 1].frames
    {
      DispatchedAfter(name, rounds, k);
    }
  }

  lemma {:induction false} NameStays(name: seq<byte>, rounds: seq<Round>)
    ensures ClientRegistered(name, false) in LogAfter(name, rounds)
  {
    if rounds != [] {
      NameStays(name, rounds[..|rounds| - 1]);
    } else {
      assert LogAfter(name, [])[1] == ClientRegistered(name, false);
    }
  }
}
