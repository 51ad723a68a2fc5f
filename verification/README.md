# Student-Sync: a model of the streaming system and proofs about it

Student-Sync lets a teacher's machine (the server) watch the screens of students' machines (the clients). This project
models what its own code decides: the session protocol between the two machines with all the threads involved, the
server's window and session list above it, the wire format and byte loops below it, the screen capture geometry, and
the smaller arithmetic and ordering parts. `dafny verify dfyconfig.toml` checks everything.

## What is modelled

| files | what |
|---|---|
| `Sessions`, `Servers`, `Windows` | `Session`, `Server` and `Window` as classes with their locked sections, loops and event handlers, the workers running on between the steps |
| `Protocol`, `ProtocolInvariant`, `ProtocolProofs`, `ProtocolTheorems`, `ProtocolStreams`, `ProtocolTraps`, `ProtocolFailures`, `ProtocolEndings`, `ProtocolTorn` | server worker, the threads sharing its session, the client's main and timer threads and both channels, as one system that moves by single steps; its inductive invariant; what follows for every run; the runs that are possible; runs that go wrong and when a worker can end; what each failure leads to; what can still come once a socket is closed; what comes of reads that this cuts short |
| `Desktop`, `Projection` | all sessions, the window's FIFO event queue, its `clients` map and current stream, again over every interleaving; and that a session of the protocol moves in it only as it allows |
| `WholeSystem` | the program as a whole: any number of sessions and clients that follow the protocol side by side, the dispatcher and the window; both sets of theorems hold in it |
| `Bytes`, `Tlv`, `Sockets`, `Framing`, `Messages` | network byte order, the two parsers, the loops over short reads and writes, sending and receiving, the typed payloads |
| `Capture`, `Timers`, `Resolution`, `ClientList` | monitor rectangles, blits and pixel rows; callback spacing; printing and parsing resolutions; the sorted sidebar |

Integers are unbounded in Dafny, so the widths of the target (Windows x64: `int`, `long` and `unsigned` of 32 bits,
`size_t` of 64) are written out wherever a conversion, a wrap-around or a size limit matters.

In `Protocol` the worker's and the client's code is cut into the steps at which other threads can come in between: each
read and write, each locked section, each dispatch. A run is any sequence of possible steps. A read or write may fail at
any time. Closing a socket under a read or write that is under way may leave it reporting success on incomplete data
(`networking/socket/socket.cpp:70`, `networking/socket/socket.cpp:94`). That happens on the server, when another thread
terminates the session, and on the client, when its window is closed (`client/window/window.events.cpp:42-50`) or its
timer's write fails. What such a torn read returns is settled at that moment, and only if part of a message had come in:
it has that message's tag, and either the first bytes of its value with zeros after them, or an empty value if the length
was cut short, the variable for it being uninitialised (`networking/tlvmessage/tlvmessage.cpp:32-46`). This is what
`Framing.TryReceive` promises and what `Protocol` uses (`Tlv.TornOf`, `Tlv.CutFromIsTornOf`). So that it is known what is
on the wire, the model tells a write that has put out part of its message from one that is done. The theorems speak of
what is whole, and say how much torn data there can be, when, and what it is. A client marked `legacy` sends
`StreamFrame`s, which the server still accepts; the client in this repository sends `H264Packet`s.

## Properties that the code does not have

Each is stated with the exact condition under which the code does meet it.

- Restarting a stream. The drain before a new round skips leftover `StreamFrame`s only, but the client sends
  `H264Packet`s. A restart succeeds if and only if every packet of the round before has been dispatched; otherwise the
  session is terminated although nothing failed (`Restart`, with a run in `RestartCanEndSession`). With a client that
  sends `StreamFrame`s the drain does what it is for (`LegacyRestart`). `PROTOCOL.md:45` wants such messages ignored, and
  `PROTOCOL.md` also has the client answer EndStream with Ok, which it does not do; the model follows the code.
- Leaving the drain. It retries for ever on a failed read, so a worker draining a closed socket never finishes, and
  joining it never returns, unless that very closing has cut short the read of a message other than a StreamFrame
  (`DrainEndsOnlyByTornRead`, an equivalence; `TrapIsReached` and `DrainIsLeft` reach either side).
- The map of clients as the live sessions. Once the window has handled all events, a client is in the map if and only if
  its session lives, has its end still to be dispatched, or had its name reported only after it had left
  (`ClientsAreLive`, `WindowShowsLive`; `ClientsExactly` at any time). The last kind stays for good;
  `WholeSystem.StaleClientIsReached` reaches one.
- SessionEnded as a session's last event. From the state an ended session is in, one more report can follow if and only
  if its worker holds a name or frame it has read, or is in a read that the closing cut short so that it returns one
  (`LateReportIff`); both are reached (`LateReportIsReached`, `TornReportIsReached`), and there is never another
  (`SessionLog`). A torn report is of the next message from the client, as far as that had come in
  (`TornReportsAreOfNext`).
- Capturing with what was settled. A client whose window is closed while InitializeStream is coming in can start one last
  round with parameters that nobody offered, those of the settlement with zeros for what had not come in
  (`TornCapturesAreOfSettlement`, `TornCaptureIsReached`); after the closing it captures again if and only if the closing
  cut that very read short and it still returns a frame rate other than 0 (`TornCaptureIff`). All its other rounds are
  captured as settled (`Negotiation`).
- ScreenTooLargeToCapture. The guard compares a 32-bit `long` with `INT_MAX` and never fires; the sizes computed are the
  true ones, and a monitor is copied inside the bitmap, if and only if the screen spans at most `INT_MAX` each way
  (`GuardNeverFires`, `BlitsInside`, `GuardFails`).
- Pacing. A settled frame rate below 1 leaves the timer's callbacks unpaced; the period is at least 16 ms if and only if
  the client offered at least 1 (`SettledPeriod`).
- The parsers return no message on malformed input, except that a header whose length no vector can hold makes the
  allocation throw; for `TryFromBuffer` this happens if and only if the tag is valid and 9 plus the length wraps around
  2^64 (`TryFromBuffer`).
- Identifiers are distinct if and only if there have been at most 2^32 sessions (`IdentifiersDistinctIff`).
- Text after a printed resolution. If it holds an `x`, it is harmless if and only if its last `x` is followed by the same
  height again; otherwise, if and only if it starts with no digit, or with noughts after a height of 0
  (`SuffixKeepsResult`).
- Re-encoding what was decoded gives the same message if and only if fixed-size payloads have exactly their size
  (`EncodeOfDecode`).

## Model

| member | source | states |
|---|---|---|
| ProtocolProofs.DoesKeepsInv | server/session/session.cpp:112-203 | every single step of any thread of server or client keeps the invariant that ties both threads of control, the round number, both channels, the captures and the event log together |
| ProtocolProofs.RunKeepsInv | server/session/session.cpp:112-203 | so does every run |
| ProtocolProofs.WorkerKeepsInv | server/session/session.cpp:146-203 | the worker's part: reads, writes, lost and torn ones, reports, termination |
| ProtocolProofs.ClientKeepsInv | client/window/window.thread.cpp:18-159 | the part of the client's main thread, with the window closing its socket at any moment and reads and writes that this cuts short |
| ProtocolProofs.TimerKeepsInv | client/window/window.thread.cpp:105-153 | the part of the client's timer thread |
| ProtocolProofs.OtherIsOp | server/session/session.cpp:21-105 | what other server threads do to a session in the protocol is one of the session's own locked operations |
| ProtocolTheorems.Negotiation | server/session/session.cpp:160-173 | in every reachable state the k-th InitializeStream carries the resolution of the client's k-th StreamParams and the lesser of its frame rate and 60, and the client captures round k with exactly these, but for one round at most, its last, captured from a read that the closing of its own socket cut short |
| ProtocolTheorems.FramesInOrder | server/session/session.cpp:178-198 | no stale, lost, repeated or reordered frame: what is dispatched in round k is a prefix of what the client sent in round k |
| ProtocolTheorems.FramesSizedAsOffered | client/window/window.thread.cpp:64-153 | every whole frame dispatched in round k has the size that the client itself offered in round k |
| ProtocolTheorems.WireOrder | client/window/window.thread.cpp:18-159 | the server's messages are a prefix of Ok (GetStreamParams InitializeStream EndStream)*, the client's of Hello (StreamParams frame*)* |
| ProtocolTheorems.OneSender | client/window/window.thread.cpp:105-159 | whenever the timer's thread can act, the main thread waits for EndStream or joins the timer, and no step of it sends anything: never two senders, and no callback after the timer is gone |
| ProtocolTheorems.SessionLog | server/session/session.cpp:93-144 | every log starts with SessionStarted, registers at most once and before all frames, ends at most once, terminated and closed by then, with at most one report of the worker afterwards; LateReportIff says when |
| ProtocolEndings.LateReportIff | server/session/session.cpp:93-118 | in every reachable state after SessionEnded, a continuation with another report exists exactly if the worker holds a name or frame already read, or is in a read that the closing cut short so that it returns one |
| ProtocolEndings.LateReportIsReached | server/session/session.cpp:93-118 | for every name, a run in which it is read whole and reported only after SessionEnded |
| ProtocolEndings.TornReportIsReached | networking/socket/socket.cpp:75-97 | a run in which half a name is reported after SessionEnded, the other half zero |
| ProtocolEndings.TornCaptureIff | client/window/window.thread.cpp:82-104 | once the client's socket is closed, a continuation with another captured round exists exactly if it awaits InitializeStream in a read that the closing cut short so that it returns one of a frame rate other than 0 |
| ProtocolEndings.TornCaptureIsReached | client/window/window.events.cpp:42-50 | a run in which the server has sent its settlement, the window is closed when a third of it has come in, and the client captures at 0 by 0 |
| ProtocolTorn.DoesKeepsTornInv | networking/tlvmessage/tlvmessage.cpp:17-52 | every step of any thread keeps it that what is torn, pending, in hand, reported or captured, was cut from the next message of the other side |
| ProtocolTorn.TornReportsAreOfNext | server/session/session.cpp:113-197 | every torn name or frame reported is that of the next message from the client after those read, as far as it had come in |
| ProtocolTorn.TornCapturesAreOfSettlement | client/window/window.thread.cpp:82-104 | every torn capture has the parameters settled for its own round, as far as they had come in |
| ProtocolTheorems.TornAtMostOnce | networking/socket/socket.cpp:70-94 | data cut short by a closing socket is reported at most once, and only once the session is terminated |
| ProtocolTheorems.RegisteredByName | server/session/session.cpp:113-118 | a session is registered under the name its client sent |
| ProtocolTheorems.Restart | server/session/session.cpp:151-173 | a new round takes its offer exactly when all packets of the round before were dispatched, and otherwise goes on to terminate the session |
| ProtocolTheorems.LegacyRestart | server/session/session.cpp:151-173 | leftover StreamFrames are dropped one by one, undispatched, and then the new offer is taken |
| ProtocolStreams.EverySessionIsPossible | server/session/session.cpp:112-203 | for any name and any list of rounds, each with an offer and packets of its size, there is a run that registers the name, dispatches exactly those packets round by round, and leaves the session ready for more: the theorems on every run do not hold for want of runs |
| ProtocolStreams.AllRounds | client/window/window.thread.cpp:18-159 | the complete state of both machines after such a run, by induction on the rounds |
| ProtocolTraps.DrainEndsOnlyByTornRead | server/session/session.cpp:153-158 | a worker draining a closed socket can ever leave the drain if and only if the closing has cut short the read of a message other than a StreamFrame |
| ProtocolTraps.TrapHoldsForever | server/session/session.cpp:153-158 | once there it stays there in every continuation |
| ProtocolTraps.TrapIsReached | server/session/session.cpp:153-158 | a run from the start leads there: the session is terminated while its worker waits for the client's offer |
| ProtocolTraps.DrainIsLeft | server/session/session.cpp:153-158 | a run in which the closing cuts the offer short, so that the drain can be left |
| ProtocolTraps.RestartCanEndSession | server/session/session.cpp:153-163 | a run without any failure in which stopping and starting a stream ends the session |
| ProtocolTraps.CanFinishIff | server/session/session.cpp:126-143 | from any state that the invariant allows with the session terminated, a run in which the worker's thread ends exists exactly if the worker is not trapped in the drain: so Join can return in every other case |
| ProtocolTraps.FinishedIsOver | server/session/session.cpp:142-143 | a worker whose thread has ended has left its session terminated, and never acts again |
| ProtocolFailures.WorkerGivesUpIff | server/session/session.cpp:112-173 | which reads, failures and states make the worker terminate its session, and that nothing else does: in particular no failed read once the client is registered |
| ProtocolFailures.GivingUpLeads | server/session/session.cpp:93-143 | giving up within a round returns to the main loop, which then ends; giving up outside one ends the thread; SessionEnded is reported unless it had been, and nothing more is sent |
| ProtocolFailures.RoundEnds | server/session/session.cpp:178-202 | a failed read, a message that is no frame, or a stop ends the round with EndStream and keeps the session |
| ProtocolFailures.StateDecides | server/session/session.cpp:126-140 | the loops ask the state alone: another frame and another round exactly while it is Streaming, another turn exactly unless it is Terminated |
| ProtocolFailures.FailedForGood | networking/socket/socket.cpp:56-91 | after a failed read, or a failed write of the client, that direction carries nothing more in any continuation |
| ProtocolFailures.LostLeadsOn | networking/socket/socket.cpp:70-72 | a write cut short that reports success leads where a whole one would, having delivered nothing |
| ProtocolFailures.NothingUnasked | server/session/session.cpp:126-140 | over all runs in which nobody starts the session, the server sends at most Ok and the client at most Hello, no frame is reported, and nothing is captured but for a read cut short by the closing of the client |
| ProtocolFailures.ClientEndsIff | client/window/window.thread.cpp:18-104 | which reads, failures and answers end the client's main thread, and that no other step does |
| ProtocolFailures.ClientListensIff | client/window/window.thread.cpp:40-92 | which of them leave it listening, or bring it back to that |
| ProtocolFailures.TimerRunsIff | client/window/window.thread.cpp:104-157 | the timer starts exactly on an InitializeStream waited for, of a rate other than 0, and whatever comes next, or nothing, stops it |
| Sessions.Session.constructor | server/session/session.cpp:8-19 | a new session is Idle, open, and has reported SessionStarted |
| Sessions.Session.StartStreaming | server/session/session.cpp:21-38 | the new state for every old one; the result is whether the session now streams; nothing but an idle session changes, and of that only the state |
| Sessions.Session.StopStreaming | server/session/session.cpp:40-55 | likewise; afterwards it does not stream, the result is whether it did before, and a session that did not is left exactly as it was |
| Sessions.Session.ToggleStreaming | server/session/session.cpp:57-75 | likewise; the result is whether the session now streams |
| Sessions.Session.Terminate | server/session/session.cpp:93-105 | terminated and closed, SessionEnded reported; a session already terminated is left exactly as it was |
| Sessions.Session.Destroy | server/session/session.cpp:205-210 | a session destroyed early is terminated first |
| Sessions.InterleavingsKeepInv | server/session/session.cpp:21-105 | under every interleaving of the locked sections, dispatches and reports: Terminated is absorbing, a closed socket stays closed, and dispatched plus pending ends are one if terminated and none otherwise |
| Sessions.EndedAtMostOnce | server/session/session.cpp:93-105 | SessionEnded is dispatched at most once, and has been exactly when the session is terminated with no Terminate still on its way to dispatch |
| Sessions.EndedMeansClosed | server/session/session.hpp:19-23 | when SessionEnded is dispatched and ever after, the state is Terminated and the socket closed |
| Servers.Server.Run | server/server/server.cpp:24-44 | throws exactly if Listen fails; otherwise one session for every client accepted, numbered in list order from 1 modulo 2^32 |
| Servers.Server.GetSession | server/server/server.cpp:61-69 | the first session with the identifier or none; below 2^32 sessions the only one, found exactly for 1 to n |
| Servers.Server.Stop | server/server/server.cpp:46-59 | whatever the workers do in between, no Join throws, all sessions end terminated and closed, and the list is empty; on a stopped server it changes nothing |
| Servers.StopTwice | server/server/server.cpp:46-59 | two Stops in a row throw nowhere and end as one does |
| Servers.IdentifiersDistinctIff | server/server/server.cpp:38-42 | identifiers are distinct exactly up to 2^32 sessions |
| Windows.Window.OnClientConnected | server/window/window.events.cpp:54-73 | the handler is the step of the window system for that event, with the peer's name exactly if the session is on the list |
| Windows.Window.OnClientRegistered | server/window/window.events.cpp:75-90 | likewise, replacing or adding the entry |
| Windows.Window.OnClientDisconnected | server/window/window.events.cpp:92-101 | likewise; the lookup throws exactly if the client is not in the map |
| Windows.Window.OnClientClicked | server/window/window.events.cpp:108-154 | the handler takes exactly the steps of the window system for that click, workers coming in between; so from a reachable state no lookup fails and a reachable one results; the old stream is stopped before the new one starts, the current client is updated as each outcome demands, a start fails only on a terminated session, other sessions are left alone |
| Desktop.RunKeepsInv | server/window/window.events.cpp:54-154 | every interleaving of accepting, registering, ending, dispatching, event handling and clicks keeps the window system's invariant |
| Desktop.NoMissingLookup | server/window/window.events.cpp:92-134 | no handler ever looks up a client that is not in the map |
| Desktop.ClickStaysReachable | server/window/window.events.cpp:108-134 | a click handled from a reachable state leads to a reachable one, all clients looked up having been found |
| Desktop.DisconnectFindsClient | server/window/window.events.cpp:92-101 | a disconnect is always handled while its client is in the map |
| Desktop.OneStreamer | server/window/window.events.cpp:108-154 | at most one session streams, and between clicks it is the current one |
| Desktop.ClickToggles | server/window/window.events.cpp:108-154 | over all runs: a click on the current client leaves none streaming and none current; on any other it stops whatever streamed and starts the session clicked, as the only one and the current one, exactly if it is on the server's list and not terminated |
| Desktop.KeysAndButtons | server/window/window.events.cpp:54-101 | every key is its entry's identifier, with a button for exactly the entries of the map |
| Desktop.ClientsAreLive | server/window/window.events.cpp:54-101 | with all events handled, the map holds exactly the clients whose sessions are not terminated, have their end still to be dispatched, or were registered after they had left |
| Desktop.ClientsExactly | server/window/eventdispatcher/eventdispatcher.cpp:14-35 | at any time the map holds exactly the clients whose connection has been handled and whose leaving has not, or whose name came after they had left |
| Desktop.ShownUnder | server/window/window.events.cpp:54-101 | over all runs, by the last event handled about a client: connected, it is shown under the peer's address as found then; registered, under the name reported; disconnected, not at all |
| Desktop.StaleClientIsReached | server/window/window.events.cpp:75-90 | a run that leaves a client in the map whose session is over |
| Projection.StepProjects | server/session/session.cpp:93-198 | every step of the protocol, other than the window's start and stop, is a move that the window system allows on that one session, or leaves it as it is: so the theorems on all its runs hold for sessions that follow the protocol |
| Projection.RunProjects | server/session/session.cpp:93-198 | and so is every run of the protocol between two steps of the window |
| WholeSystem.StepIsMove | server/window/eventdispatcher/eventdispatcher.cpp:14-44 | every step of the whole program, in which all sessions with their clients follow the protocol and the dispatcher queues what they report, is one move of the window system or leaves it as it is |
| WholeSystem.ProgramIsBoth | server/server/server.cpp:24-59 | in every state of the whole program the window system is in a reachable state, and every session with its client in one reachable in the protocol |
| WholeSystem.WindowIsSafe | server/window/window.events.cpp:54-154 | so over all its runs no lookup fails, at most one session streams, and between clicks it is the current one |
| WholeSystem.WindowShowsLive | server/window/window.events.cpp:54-101 | with all events handled, the window shows exactly the clients whose sessions are not terminated, have their end still to be dispatched, or were registered after they had left |
| WholeSystem.ShownByOwnName | server/window/window.events.cpp:75-90 | over all runs of the program, a client whose registration is its last event handled is shown under the name reported, which is the one in its own Hello unless its session is terminated |
| WholeSystem.WatchingIsReached | server/window/window.events.cpp:108-154 | for every name, a run in which its client registers and one click makes it the one that streams, shown under that name; and a second click ends that |
| WholeSystem.StaleClientIsReached | server/session/session.cpp:93-118 | for every name, a run of the whole program that leaves its client shown for good |
| ClientList.LessIsTotal | server/window/window.cpp:125-129 | the comparator orders any two different entries one way and not the other |
| ClientList.LessIsTransitive | server/window/window.cpp:125-129 | and is transitive |
| ClientList.LessIff | server/window/window.cpp:125-129 | it puts names first, in the order of a dictionary of bytes, and identifiers second |
| ClientList.RefreshClientList | server/window/window.cpp:119-129 | the list shown is sorted and holds each value of the map once, in whatever order the map is walked |
| ClientList.DisplayUnique | server/window/window.cpp:119-142 | there is only one such list |
| Sockets.Socket.Close | networking/socket/socket.cpp:25-37 | afterwards the socket is invalid |
| Sockets.Socket.WriteAllBytes | networking/socket/socket.cpp:47-73 | a prefix is sent under every split of the writes, and all of it on Success unless another thread closed the socket; each result corresponds to what made the last write fail, a reset, shutdown or abort closing the socket and any other failure leaving it as it is; a reliable socket always succeeds; the loop terminates for every size |
| Sockets.Socket.ReadAllBytes | networking/socket/socket.cpp:75-97 | the buffer holds the next bytes of the stream under every split of the reads, filled on Success unless another thread closed the socket; the end of the stream or a reset closes the socket and is reported as such, any other failure is an Error; where the stream is too short and nothing else goes wrong, it is ConnectionClosed; asking for nothing reads as the end |
| Framing.Send | networking/tlvmessage/tlvmessage.cpp:101-119 | exactly the message's encoding is written, in network order |
| Framing.TryReceive | networking/tlvmessage/tlvmessage.cpp:17-52 | the message is the one at the front of the stream, and exactly its bytes are consumed; on a connection that does not fail: none and the socket closed exactly if the stream is short, none with the tag consumed if the tag is bad, an exception with the header consumed if no vector can hold the length; after a concurrent close whatever message is returned has the tag at the front, and an empty value or a part of that value with zeros after it |
| Framing.BufferAndStreamAgree | networking/tlvmessage/tlvmessage.cpp:17-99 | for every buffer and every chunking both parsers find the same message or none, consuming the same size |
| Framing.Conversation | networking/tlvmessage/tlvmessage.cpp:17-119 | every list of messages, sent under any split of the writes and received under any split of the reads, arrives as that list with nothing left over |
| Tlv.TryFromBuffer | networking/tlvmessage/tlvmessage.cpp:54-99 | finds a message exactly where one starts the buffer; the exact condition for the allocation to throw |
| Tlv.ParseIffEncodingIsPrefix | networking/tlvmessage/tlvmessage.cpp:17-119 | parsing yields m exactly where the bytes start with the encoding of m |
| Tlv.PrefixFree | networking/tlvmessage/tlvmessage.cpp:101-119 | no encoding is a prefix of another |
| Tlv.CutFromIsTornOf | networking/tlvmessage/tlvmessage.cpp:17-52 | so with m, or the part of it that has come in, at the front of the stream, a torn read returns only what the protocol allows for m |
| Tlv.StreamRoundTrip | networking/tlvmessage/tlvmessage.cpp:17-119 | the concatenated encodings of any list parse to that list with nothing left |
| Tlv.WireAllOfMessages | networking/tlvmessage/tlvmessage.cpp:17-52 | and the messages parsed off any stream re-encode to exactly the bytes consumed |
| Tlv.TagOf | networking/tlvmessage/tlvmessage.hpp:22-86 | the cast of a valid raw tag is undone by the cast back |
| Tlv.TagsInOrder | networking/tlvmessage/tlvmessage.hpp:22-86 | a tag's byte is its place in the enumeration, and exactly the places are valid |
| Tlv.WireLayout | networking/tlvmessage/tlvmessage.cpp:101-119 | octet by octet: the tag, the length in eight octets from the most significant on, the value |
| Bytes.StoredInNetworkOrder | networking/tlvmessage/tlvmessage.cpp:105-115 | storing what htonll or htonl returns puts the number into the buffer most significant octet first (Appendix B of RFC 791) |
| Bytes.LoadedFromNetworkOrder | networking/tlvmessage/tlvmessage.cpp:69-71 | loading and ntohll or ntohl read it in that order |
| Bytes.BigEndianOctet | networking/tlvmessage/tlvmessage.cpp:105-115 | which power of 256 each octet in that order stands for |
| Messages.DecodeOfEncode | networking/message/message.hpp:18-26 | decoding undoes encoding for every message of every kind |
| Messages.EncodeOfDecode | networking/message/streamparams.hpp:11-57 | encoding undoes decoding exactly for fixed-size payloads of their exact size, and always for Hello, H264Packet and StreamFrame |
| Messages.DecodesIff | networking/message/streamframe.hpp:34-57 | which tags and payloads decode at all |
| Messages.ReadersApart | networking/message/message.hpp:18-26 | each kind's own reading finds exactly the messages of that kind, so no message is read as two |
| Messages.FormatsInOrder | common/gdiplusutil/gdiplusutil.hpp:12-18 | a format's byte is its place in the enumeration, and no other byte is read |
| Messages.ParamsLayout | networking/message/streamparams.hpp:40-57 | frame rate, width and height lie in this order in the payload, four octets each |
| Messages.PacketLayout | networking/message/h264packetmessage.hpp:52-84 | width, height, image |
| Messages.TypedStreamRoundTrip | networking/message/message.hpp:18-26 | a byte stream carrying typed messages is a FIFO queue of them, which is what the protocol's channels are |
| Messages.StreamParamsToTlv | networking/message/streamparams.hpp:40-57 | the three copies through the advancing pointer produce the payload |
| Messages.StreamParamsFromTlv | networking/message/streamparams.hpp:11-38 | and the reading that inverts them |
| Messages.ParamsRoundTrip | networking/message/initializestream.hpp:11-44 | for all 32-bit fields, under either of the two tags that share the payload |
| Messages.H264PacketToTlv | networking/message/h264packetmessage.hpp:52-84 | the value built by back inserters is the packet's payload |
| Messages.H264PacketFromTlv | networking/message/h264packetmessage.hpp:21-50 | reads it, and refuses what is too short or of another tag |
| Messages.H264RoundTrip | networking/message/h264packetmessage.hpp:21-84 | for all sizes, negative ones too, and all tails |
| Messages.StreamFrameToTlv | networking/message/streamframe.hpp:59-71 | format byte and image are the payload |
| Messages.StreamFrameRoundTrip | networking/message/streamframe.hpp:34-71 | for all formats and images |
| Capture.ReduceIsLeast | common/gdiplusutil/gdiplusutil.cpp:59-90 | however the reduction is grouped it contains every monitor and is contained in every rectangle that does |
| Capture.ReduceIndependentOfGrouping | common/gdiplusutil/gdiplusutil.cpp:85-90 | every permutation and grouping gives the same rectangle |
| Capture.CaptureScreen | common/gdiplusutil/gdiplusutil.cpp:75-149 | when each check fails; that it succeeds exactly if the checks pass and every monitor has a context and is copied, and otherwise reports the first that is not; and that a success has the size of the bounding rectangle with each monitor copied once, in order, to its place |
| Capture.CopyMonitors | common/gdiplusutil/gdiplusutil.cpp:123-146 | the monitors are copied in list order up to the first that fails, whose failure is the error |
| Capture.FitsIff | common/gdiplusutil/gdiplusutil.cpp:103-106 | for screens up to INT_MAX each way, a bitmap passes the size check exactly if every monitor would be copied inside it |
| Capture.BlitsInside | common/gdiplusutil/gdiplusutil.cpp:123-146 | a blit lies inside the bitmap exactly if the screen spans at most INT_MAX each way; then it is whole and keeps its offset to every other |
| Capture.GuardNeverFires | common/gdiplusutil/gdiplusutil.cpp:92-97 | the size check never fires; the sizes are right exactly up to INT_MAX |
| Capture.GuardFails | common/gdiplusutil/gdiplusutil.cpp:92-97 | a screen that it should have refused |
| Capture.CopyRows | common/gdiplusutil/gdiplusutil.cpp:186-192 | the row loop terminates in both directions, the descending one by wrap-around, for height 0 too, and appends each row once, in that order |
| Capture.GetPixelData | common/gdiplusutil/gdiplusutil.cpp:151-200 | when each error is returned; otherwise exactly bytesPerLine * Height bytes, byte p being byte p % bytesPerLine of the row that starts at y * |Stride|, where y is p / bytesPerLine for a stride that is not negative and counts from the last row up otherwise |
| Capture.DownwardAt | common/gdiplusutil/gdiplusutil.cpp:186-192 | bytes k * bytesPerLine onwards of the output are those from k * pitch on in the buffer |
| Capture.UpwardAt | common/gdiplusutil/gdiplusutil.cpp:186-192 | they are those from (Height - 1 - k) * pitch on |
| Timers.Job | common/timer/timer.hpp:35-52 | one callback for each load of the flag up to the first that is set, none after it, started at least `timeout` ms apart although elapsed time is truncated, and at most a millisecond more than that or than the callback takes, but for how late the thread is woken |
| Timers.StartsInWindow | common/timer/timer.hpp:35-52 | any T ms hold at most T / timeout + 1 starts |
| Timers.SettledPeriod | client/window/window.thread.cpp:152 | for every offer, the settled period is at least 16 ms exactly if the offer was at least 1 frame per second |
| Timers.PeriodKeepsRate | client/window/window.thread.cpp:152 | for every rate, the period in whole milliseconds is a second divided by it |
| Timers.FramesInWindow | server/session/session.cpp:168 | so with r the rate settled for an offer of at least 1, at most T / (1000 / r) + 1 frames are started in any T ms of a round, and at most T / 16 + 1 |
| Resolution.ParseOfToString | common/screenresolution/screenresolution.cpp:34-51 | parsing inverts printing for every width and height |
| Resolution.SuffixKeepsResult | common/screenresolution/screenresolution.cpp:38-51 | for every text after the height, exactly when it leaves the result alone |
| Resolution.StoulOfDecimal | common/screenresolution/screenresolution.cpp:47-48 | a printed number is read back whatever follows it, short of another digit |
| Resolution.StoulOfLonger | common/screenresolution/screenresolution.cpp:47-48 | with anything after it, it is read back exactly if no digit follows, or only noughts a nought |
| Resolution.NoDelimiterIff | common/screenresolution/screenresolution.cpp:39-42 | a text is refused for want of an x exactly if it holds none |
| Resolution.ParseAround | common/screenresolution/screenresolution.cpp:44-50 | otherwise the width is what stoul makes of all before the last x and the height what it makes of all behind; the width's failure comes first |
| Resolution.StoulOfSigned | common/screenresolution/screenresolution.cpp:47-48 | spaces and a sign before a number: a minus counts modulo 2^32, and only the number itself must fit |
| Resolution.NoNumber | common/screenresolution/screenresolution.cpp:47-48 | without a digit after them there is no number |
| Resolution.NoLeadingNought | common/screenresolution/screenresolution.cpp:34-36 | numbers are printed without leading noughts |

## Left out

- Liveness: `notifier.wait` has no predicate, so a notification between `GetState` and `wait` is lost; the model lets a waiting worker wake at any time and states safety only.
- The worker's `ThreadEntry` and `ThreadStreaming` and the client's `ConnectionHandler` and `ThreadStreaming` as methods: what matters about them is their interleaving, so they are steps of a state machine over their program places.
- Sessions.Session.Join: only its guard; waiting for the worker is not modelled here, and whether the worker can finish is what ProtocolTraps is about.
- Sockets.Socket.Close: a failing `closesocket`, which leaves the socket valid.
- Sessions.Session.Terminate: as one step; that others come in between its locked section and its dispatch is modelled by `Sessions.Op`, `Protocol` and `Desktop`, which split it.
- Sessions.WorkersRun: what workers do between the steps of the server and window methods is bounded by what they can do to a session, not by the protocol.
- Servers.Server.Stop: with an accept in flight it can miss the new session; the method is stated without one. Data races on the session vector are not modelled.
- Servers.Server.Run: exceptions of starting a thread.
- Framing.Send: a payload so large that header and payload exceed the largest vector throws; it is excluded, as is running out of memory elsewhere.
- Sockets.Socket.OtherThreads: a close by another thread comes in after a call of `send` or `recv`, before the loop looks whether the socket is valid; one that comes after that look makes the next call fail, which the model has as a failure of that call on a socket that is not reliable.
- Sockets.Socket.ReadAllBytes: `closesocket` is taken to succeed, `recv` and `send` to stay within what was asked and to make progress when they succeed, and descriptors not to be reused.
- Protocol.ClientDoes: a client that fails to receive uses an empty message, which is undefined behaviour; its run ends there instead. Likewise for frame rate 0, a division by zero, and for an exception at any time.
- Protocol.CanCut: which of the possible torn results a closing leaves is open, and so is whether there is one; an uninitialised length may hold anything.
- Protocol.WorkerDoes: once a read or write has failed, that direction carries nothing more.
- Protocol.TimerDoes: a write cut short by the closing of the socket is the same step as sending none; a frame is opaque; the H.264 encoder and decoder, whether a tick yields a packet, and the image it shows are left open.
- Desktop.RunKeepsInv: fewer than 2^32 sessions; what the window does with frames and log lines is left out, and Stop is one step, taken when all sessions are terminated, in WholeSystem when all workers have finished.
- Windows.Window.OnClientClicked: log lines and status bar text.
- ClientList.Sort: an insertion sort stands in for `std::sort`, whose result on a strict total order is determined anyway.
- Capture.CaptureScreen: device contexts, bitmap allocation and the copying itself are outcomes left open; differences of 32-bit `long` wrap, where C++ leaves them undefined.
- Capture.GetPixelData: whether locking and unlocking succeed is left open; the buffer is what `LockBits` gives, read as the code reads it.
- Timers.Job: the clock is any that does not go back, and sleeping takes at least as long as asked.
- Winsock, GDI+, wxWidgets and FFmpeg; address lookup, bind, connect and accept of TCP sockets.
- `main.cpp`, dialogs, preferences and their storage, logging.
- `DynamicBitmap`, `GetAspectRatio`, `Scale` and `ScaleToFitWithin`: floating point.
- `Generator`, `Task`, `SmartHandle` and encoding bitmaps as images.
- Timeouts and the Error message of `PROTOCOL.md`: the code has neither.
