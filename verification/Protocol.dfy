/** The streaming session protocol: the server's worker and the threads that share its session, the client's main and
    timer threads, and the two FIFO channels between them, as one system that moves by single steps.

    A channel is kept as everything ever delivered into it together with how much of it has been taken out. */
module Protocol {
  import opened Bytes
  import opened Options
  import opened Messages
  import opened Sessions
  import Tlv

  /** A message the client sent, noted with its round: how many StreamParams it had sent by then. */
  datatype Sent = Sent(msg: Message, round: nat)

  /** Where the server's worker is. `within` tells a call of Terminate inside ThreadStreaming from one in ThreadEntry;
      `torn` marks what a read returned that the closing of the socket cut short. */
  datatype WorkerPc =
    | ReadHello
    | Register(name: seq<byte>, torn: bool)
    | SendOk
    | CheckTerminated
    | Waiting
    | SendGetParams
    | Drain
    | Drained(next: Message, torn: bool)
    | SendInitialize(params: Params)
    | CheckStreaming
    | ReadFrame
    | Handle(next: Message, torn: bool)
    | SendEnd
    | Terminating(within: bool)
    | Ending(within: bool)
    | Finished

  datatype ClientPc = SendHello | ReadOk | ReadMessage | SendParams | ReadInitialize | AwaitEnd | Joining | Dead

  datatype TimerPc = Off | Checking | Capturing | Exited

  /** What the closing of the socket by another thread leaves of a read or write that is under way, if anything: a read
      that has got part of a message may still return it, filled up, as if it were whole; a write that has put part of
      its message on the wire may still report success. */
  datatype Cut = Uncut | CutRead(got: Tlv.TlvMessage) | CutWrite

  datatype Server = Server(
    core: Core,
    pc: WorkerPc,
    cut: Cut,                  // what became of the worker's read or write when another thread closed the socket
    inDead: bool,              // a read of the worker has failed
    taken: nat,                // how many of the client's messages the worker has read
    sent: seq<Message>,        // what the worker has sent
    writing: Option<Message> := None)  // what it has put on the wire in part, after all that

  /** The parameters a round is captured with; `torn` marks those of a read that the closing of the client's own socket
      cut short. */
  datatype Capture = Capture(params: Params, torn: bool)

  datatype Client = Client(
    pc: ClientPc,
    open: bool,
    cut: Cut,               // what became of the main thread's read or write when another thread closed the socket
    cIn: bool,              // no read has failed
    cOut: bool,             // no write has failed
    taken: nat,             // how many of the worker's messages the client has read
    sent: seq<Sent>,        // what the client has sent
    captures: seq<Capture>, // what it has started to capture with, one for each round
    timer: TimerPc,
    stop: bool,
    writing: Option<Message> := None)  // what it has put on the wire in part, after all that

  /** `legacy` clients send StreamFrames instead of H264Packets, as the server still allows. */
  datatype System = System(legacy: bool, server: Server, client: Client)

  function Init(legacy: bool): System {
    System(legacy, Server(NEW, ReadHello, Uncut, false, 0, []),
                   Client(SendHello, true, Uncut, true, true, 0, [], [], Off, false))
  }

  datatype WorkerAct =
    | Read      // a read completes
    | ReadTorn  // a read cut short by the closing of the socket still reports success
    | ReadFails(closes: bool)
    | Begins    // a write has put part of its message on the wire
    | Send      // a write completes
    | SendLost  // a write cut short by the closing of the socket still reports success
    | SendFails(closes: bool)
    | Step                     // any step that is neither

  datatype OtherAct = StartIt | StopIt | ToggleIt | TerminateIt(how: Cut) | DispatchIt

  datatype ClientAct =
    | BeginsWriting(m: Message)
    | SendsHello(name: seq<byte>)
    | SendsParams(params: Params)
    | WriteLost                // a write cut short by the closing of the socket still reports success
    | WriteFails(closes: bool)
    | Reads
    | ReadsTorn                // likewise for a read
    | ReadFailing(closes: bool)
    | Joins
    | WindowCloses(how: Cut)   // the window's thread closes the socket, to join the main thread after that
    | Dies                     // an exception, or undefined behaviour, ends the program

  /** Skips also stands for a write of the timer that the closing of the socket cut short. A failing write may close the
      socket under the main thread, too. */
  datatype TimerAct =
    | Checks
    | BeginsSending(frame: Message)
    | Sends(frame: Message)
    | Skips
    | FailsToSend(closes: bool, how: Cut)

  datatype Action = ByWorker(w: WorkerAct) | ByOther(o: OtherAct) | ByClient(a: ClientAct) | ByTimer(t: TimerAct)

  function Min(a: int, b: int): int {
    if a < b then a else b
  }

  function Negotiate(p: Params): Params {
    Params(Min(60, p.frameRate), p.resolution)
  }

  predicate IsFrame(m: Message) {
    m.StreamFrameMsg? || m.H264PacketMsg?
  }

  predicate Reading(pc: WorkerPc) {
    pc.ReadHello? || pc.Drain? || pc.ReadFrame?
  }

  predicate Sending(pc: WorkerPc) {
    pc.SendOk? || pc.SendGetParams? || pc.SendInitialize? || pc.SendEnd?
  }

  /** How many times the worker has asked for parameters. */
  function Round(v: Server): nat {
    (|v.sent| + 1) / 3
  }

  /** How many times the client has offered parameters. */
  function LastRound(sent: seq<Sent>): nat {
    if sent == [] then 0 else sent[|sent| - 1].round
  }

  /** How the closing of a socket can end what its thread is doing, given the message that is coming in for it. */
  predicate CanCut(how: Cut, reading: bool, writing: bool, coming: Option<Message>) {
    match how
    case Uncut => true
    case CutRead(got) => reading && coming.Some? && Tlv.TornOf(got, ToTlv(coming.value))
    case CutWrite => writing
  }

  /** The next message for the worker, as far as any of it is on the wire; likewise for the client. */
  function ToWorker(v: Server, c: Client): Option<Message> {
    if v.taken < |c.sent| then Some(c.sent[v.taken].msg) else c.writing
  }

  function ToMain(v: Server, c: Client): Option<Message> {
    if c.taken < |v.sent| then Some(v.sent[c.taken]) else v.writing
  }

  // ---- the worker ----

  function Outgoing(pc: WorkerPc): Message
    requires Sending(pc)
  {
    match pc
    case SendOk => OkMsg
    case SendGetParams => GetStreamParamsMsg
    case SendInitialize(p) => InitializeStreamMsg(p)
    case SendEnd => EndStreamMsg
  }

  function AfterSend(pc: WorkerPc): WorkerPc
    requires Sending(pc)
  {
    match pc
    case SendOk => CheckTerminated
    case SendGetParams => Drain
    case SendInitialize(p) => CheckStreaming
    case SendEnd => CheckTerminated
  }

  function AfterRead(pc: WorkerPc, m: Message, torn: bool): WorkerPc
    requires Reading(pc)
  {
    match pc
    case ReadHello => if m.HelloMsg? then Register(m.username, torn) else Terminating(false)
    case Drain => if m.StreamFrameMsg? then Drain else Drained(m, torn)
    case ReadFrame => Handle(m, torn)
  }

  /** After a torn read; what it returned may not decode. */
  function AfterTornRead(pc: WorkerPc, got: Tlv.TlvMessage): WorkerPc
    requires Reading(pc)
  {
    match Decode(got)
    case Some(m) => AfterRead(pc, m, true)
    case None =>
      match pc {
        case ReadHello => Terminating(false)
        case Drain => if got.tag == Tlv.StreamFrame then Drain else Terminating(true)
        case ReadFrame => SendEnd
      }
  }

  function AfterFailedRead(pc: WorkerPc): WorkerPc
    requires Reading(pc)
  {
    match pc
    case ReadHello => Terminating(false)
    case Drain => Drain
    case ReadFrame => SendEnd
  }

  function Report(v: Server, e: Event): Core {
    v.core.(log := v.core.log + [e])
  }

  function LocalStep(v: Server): Server
    requires !Reading(v.pc) && !Sending(v.pc) && !v.pc.Finished?
    requires v.pc.Ending? ==> v.core.ending > 0
  {
    match v.pc
    case Register(name, torn) => v.(core := Report(v, ClientRegistered(name, torn)), pc := SendOk)
    case CheckTerminated => v.(pc := if v.core.state == Terminated then Terminating(false) else Waiting)
    case Waiting => v.(pc := if v.core.state == Streaming then SendGetParams else CheckTerminated)
    case Drained(m, _) =>
      v.(pc := if m.StreamParamsMsg? then SendInitialize(Negotiate(m.params)) else Terminating(true))
    case CheckStreaming => v.(pc := if v.core.state == Streaming then ReadFrame else SendEnd)
    case Handle(m, torn) =>
      if !IsFrame(m) then v.(pc := SendEnd)
      else
        var place := if torn || v.taken == 0 then None else Some(v.taken - 1);
        v.(core := Report(v, FrameReceived(m, Round(v), place)), pc := CheckStreaming)
    case Terminating(within) =>
      if v.core.state == Terminated then v.(pc := if within then CheckTerminated else Finished)
      else v.(core := TerminateLocked(v.core), pc := Ending(within))
    case Ending(within) => v.(core := DispatchEnded(v.core), pc := if within then CheckTerminated else Finished)
  }

  predicate WorkerCan(v: Server, toServer: seq<Sent>, w: WorkerAct) {
    match w
    case Read => Reading(v.pc) && v.core.open && !v.inDead && v.taken < |toServer|
    case ReadTorn => Reading(v.pc) && !v.core.open && v.cut.CutRead?
    case ReadFails(_) => Reading(v.pc)
    case Begins => Sending(v.pc) && v.core.open && v.writing.None?
    case Send => Sending(v.pc) && v.core.open && (v.writing.None? || v.writing == Some(Outgoing(v.pc)))
    case SendLost => Sending(v.pc) && !v.core.open && v.cut.CutWrite?
    case SendFails(_) => Sending(v.pc)
    case Step => !Reading(v.pc) && !Sending(v.pc) && !v.pc.Finished? && (v.pc.Ending? ==> v.core.ending > 0)
  }

  function WorkerDoes(v: Server, toServer: seq<Sent>, w: WorkerAct): Server
    requires WorkerCan(v, toServer, w)
  {
    match w
    case Read => v.(pc := AfterRead(v.pc, toServer[v.taken].msg, false), taken := v.taken + 1)
    case ReadTorn => v.(pc := AfterTornRead(v.pc, v.cut.got), cut := Uncut)
    case ReadFails(closes) =>
      v.(pc := AfterFailedRead(v.pc), cut := Uncut, inDead := true,
         core := v.core.(open := v.core.open && !closes))
    case Begins => v.(writing := Some(Outgoing(v.pc)))
    case Send => v.(pc := AfterSend(v.pc), sent := v.sent + [Outgoing(v.pc)], writing := None)
    case SendLost => v.(pc := AfterSend(v.pc), cut := Uncut)
    case SendFails(closes) =>
      v.(pc := Terminating(!v.pc.SendOk?), cut := Uncut, core := v.core.(open := v.core.open && !closes))
    case Step => LocalStep(v)
  }

  // ---- the other threads of the server ----

  predicate OtherCan(v: Server, coming: Option<Message>, o: OtherAct) {
    match o
    case DispatchIt => v.core.ending > if v.pc.Ending? then 1 else 0
    case TerminateIt(how) =>
      var closes := v.core.open && v.core.state != Terminated;
      CanCut(how, closes && Reading(v.pc) && !v.inDead, closes && Sending(v.pc) && v.writing.Some?, coming)
    case _ => true
  }

  function OtherDoes(v: Server, coming: Option<Message>, o: OtherAct): Server
    requires OtherCan(v, coming, o)
  {
    match o
    case StartIt => v.(core := Start(v.core).0)
    case StopIt => v.(core := Stop(v.core).0)
    case ToggleIt => v.(core := Toggle(v.core).0)
    case TerminateIt(how) => v.(core := TerminateLocked(v.core), cut := if how.Uncut? then v.cut else how)
    case DispatchIt => v.(core := DispatchEnded(v.core))
  }

  // ---- the client's main thread ----

  predicate ClientReading(pc: ClientPc) {
    pc.ReadOk? || pc.ReadMessage? || pc.ReadInitialize? || pc.AwaitEnd?
  }

  predicate ClientWriting(pc: ClientPc) {
    pc.SendHello? || pc.SendParams?
  }

  /** Another thread can close the client's socket in this way. */
  predicate CanClose(c: Client, coming: Option<Message>, how: Cut) {
    CanCut(how, c.open && ClientReading(c.pc) && c.cIn, c.open && ClientWriting(c.pc) && c.writing.Some?, coming)
  }

  predicate CanWrite(c: Client, m: Message) {
    c.open && c.cOut && (c.writing.None? || c.writing == Some(m))
  }

  predicate ClientCan(c: Client, toClient: seq<Message>, coming: Option<Message>, a: ClientAct) {
    match a
    case BeginsWriting(m) =>
      && c.open && c.cOut && c.writing.None?
      && ((c.pc.SendHello? && m.HelloMsg?) || (c.pc.SendParams? && m.StreamParamsMsg?))
    case SendsHello(name) => c.pc.SendHello? && CanWrite(c, HelloMsg(name))
    case SendsParams(p) => c.pc.SendParams? && CanWrite(c, StreamParamsMsg(p))
    case WriteLost => ClientWriting(c.pc) && !c.open && c.cut.CutWrite?
    case WriteFails(_) => ClientWriting(c.pc)
    case Reads => ClientReading(c.pc) && c.open && c.cIn && c.taken < |toClient|
    case ReadsTorn => ClientReading(c.pc) && !c.open && c.cut.CutRead?
    case ReadFailing(_) => ClientReading(c.pc)
    case Joins => c.pc.Joining? && c.timer.Exited?
    case WindowCloses(how) => CanClose(c, coming, how)
    case Dies => true
  }

  /** The client has read m. A frame rate of 0 makes the timer's period a division by zero, which ends the program. */
  function ClientGets(c: Client, m: Message, torn: bool): Client {
    match c.pc
    case ReadOk => c.(pc := if m.OkMsg? then ReadMessage else Dead)
    case ReadMessage => c.(pc := if m.GetStreamParamsMsg? then SendParams else ReadMessage)
    case ReadInitialize =>
      if !m.InitializeStreamMsg? then c.(pc := ReadMessage)
      else if m.params.frameRate == 0 then c.(pc := Dead)
      else c.(pc := AwaitEnd, captures := c.captures + [Capture(m.params, torn)], timer := Checking, stop := false)
    case AwaitEnd => c.(pc := Joining, stop := true)
    case _ => c
  }

  /** The client has read a message that is not of the kind it waits for, or does not decode. */
  function ClientIgnores(c: Client): Client {
    match c.pc
    case ReadOk => c.(pc := Dead)
    case ReadInitialize => c.(pc := ReadMessage)
    case AwaitEnd => c.(pc := Joining, stop := true)
    case _ => c
  }

  function ClientGetsTorn(c: Client, got: Tlv.TlvMessage): Client {
    match Decode(got)
    case Some(m) => ClientGets(c, m, true)
    case None => ClientIgnores(c)
  }

  function ClosedUnder(c: Client, how: Cut): Client {
    c.(open := false, cut := if how.Uncut? then c.cut else how)
  }

  function AfterWrite(pc: ClientPc): ClientPc {
    if pc.SendHello? then ReadOk else ReadInitialize
  }

  function ClientDoes(c: Client, toClient: seq<Message>, coming: Option<Message>, a: ClientAct): Client
    requires ClientCan(c, toClient, coming, a)
  {
    match a
    case BeginsWriting(m) => c.(writing := Some(m))
    case SendsHello(name) =>
      c.(pc := AfterWrite(c.pc), sent := c.sent + [Sent(HelloMsg(name), 0)], writing := None)
    case SendsParams(p) =>
      c.(pc := AfterWrite(c.pc), sent := c.sent + [Sent(StreamParamsMsg(p), LastRound(c.sent) + 1)], writing := None)
    case WriteLost => c.(pc := AfterWrite(c.pc), cut := Uncut)
    case WriteFails(closes) =>
      c.(pc := if c.pc.SendHello? then Dead else ReadMessage, cOut := false, cut := Uncut, open := c.open && !closes)
    case Reads => ClientGets(c.(taken := c.taken + 1), toClient[c.taken], false)
    case ReadsTorn => ClientGetsTorn(c.(cut := Uncut), c.cut.got)
    case ReadFailing(closes) =>
      var d := c.(cIn := false, cut := Uncut, open := c.open && !closes);
      if c.pc.AwaitEnd? then d.(pc := Joining, stop := true)
      else d.(pc := if c.pc.ReadInitialize? then ReadMessage else Dead)
    case Joins => c.(pc := ReadMessage, timer := Off)
    case WindowCloses(how) => ClosedUnder(c, how)
    case Dies => c.(pc := Dead, timer := Off, open := false, cut := Uncut)
  }

  // ---- the client's timer thread ----

  predicate SizedAs(m: Message, p: Params)
    requires m.H264PacketMsg?
  {
    m.width == ToSigned(p.resolution.width) && m.height == ToSigned(p.resolution.height)
  }

  predicate CanSend(legacy: bool, c: Client, m: Message) {
    && c.timer.Capturing? && c.captures != [] && CanWrite(c, m)
    && if legacy then m.StreamFrameMsg? else m.H264PacketMsg? && SizedAs(m, c.captures[|c.captures| - 1].params)
  }

  predicate TimerCan(legacy: bool, c: Client, coming: Option<Message>, t: TimerAct) {
    match t
    case Checks => c.timer.Checking?
    case BeginsSending(m) => CanSend(legacy, c, m) && c.writing.None?
    case Sends(m) => CanSend(legacy, c, m)
    case Skips => c.timer.Capturing? && (c.writing.None? || !c.open || !c.cOut)
    case FailsToSend(closes, how) => c.timer.Capturing? && if closes then CanClose(c, coming, how) else how.Uncut?
  }

  function TimerDoes(legacy: bool, c: Client, coming: Option<Message>, t: TimerAct): Client
    requires TimerCan(legacy, c, coming, t)
  {
    match t
    case Checks => c.(timer := if c.stop then Exited else Capturing)
    case BeginsSending(m) => c.(writing := Some(m))
    case Sends(m) => c.(timer := Checking, sent := c.sent + [Sent(m, LastRound(c.sent))], writing := None)
    case Skips => c.(timer := Checking)
    case FailsToSend(closes, how) =>
      var d := c.(timer := Checking, cOut := false);
      if closes then ClosedUnder(d, how) else d
  }

  // ---- the system ----

  predicate Can(s: System, a: Action) {
    match a
    case ByWorker(w) => WorkerCan(s.server, s.client.sent, w)
    case ByOther(o) => OtherCan(s.server, ToWorker(s.server, s.client), o)
    case ByClient(a) => ClientCan(s.client, s.server.sent, ToMain(s.server, s.client), a)
    case ByTimer(t) => TimerCan(s.legacy, s.client, ToMain(s.server, s.client), t)
  }

  function Does(s: System, a: Action): System
    requires Can(s, a)
  {
    match a
    case ByWorker(w) => s.(server := WorkerDoes(s.server, s.client.sent, w))
    case ByOther(o) => s.(server := OtherDoes(s.server, ToWorker(s.server, s.client), o))
    case ByClient(a) => s.(client := ClientDoes(s.client, s.server.sent, ToMain(s.server, s.client), a))
    case ByTimer(t) => s.(client := TimerDoes(s.legacy, s.client, ToMain(s.server, s.client), t))
  }

  predicate IsRun(s: System, run: seq<Action>)
    decreases |run|
  {
    run == [] || (Can(s, run[0]) && IsRun(Does(s, run[0]), run[1..]))
  }

  function After(s: System, run: seq<Action>): System
    requires IsRun(s, run)
    decreases |run|
  {
    if run == [] then s else After(Does(s, run[0]), run[1..])
  }

  // ---- what the theorems speak of ----

  /** The parameters the client offered, in order. */
  function Offers(sent: seq<Sent>): seq<Params> {
    if sent == [] then []
    else
      var before, last := Offers(sent[..|sent| - 1]), sent[|sent| - 1].msg;
      if last.StreamParamsMsg? then before + [last.params] else before
  }

  /** The frames the client sent in round k, in order. */
  function FramesSent(sent: seq<Sent>, k: nat): seq<Message> {
    if sent == [] then []
    else
      var before, last := FramesSent(sent[..|sent| - 1], k), sent[|sent| - 1];
      if IsFrame(last.msg) && last.round == k then before + [last.msg] else before
  }

  /** The whole frames the server dispatched in round k, in order. */
  function FramesDispatched(log: seq<Event>, k: nat): seq<Message> {
    if log == [] then []
    else
      var before, last := FramesDispatched(log[..|log| - 1], k), log[|log| - 1];
      if last.FrameReceived? && last.place.Some? && last.round == k then before + [last.frame] else before
  }
}
