/** The server's window: its event handlers over the map of clients and the current stream. */
module Windows {
  import opened Bytes
  import opened Options
  import opened Sessions
  import opened Servers
  import opened ClientList
  import D = Desktop

  const UNKNOWN: seq<byte> := [85, 110, 107, 110, 111, 119, 110]

  class Window {
    var clients: map<uint32, ClientInfo>
    var current: Option<uint32>
    var shown: seq<ClientInfo>

    ghost predicate Valid()
      reads this`clients, this`shown
    {
      KeysMatch(clients) && Displays(shown, clients)
    }

    /** The window as the system of all sessions sees it between two handlers. */
    ghost function Now(): D.Window
      reads this
    {
      D.Window(clients, set x | x in shown :: x.identifier, current, D.Ready, false)
    }

    constructor ()
      ensures Valid() && Now() == D.START.window
    {
      clients, current, shown := map[], None, [];
    }

    method Refresh()
      requires KeysMatch(clients)
      modifies this`shown
      ensures Valid() && (set x | x in shown :: x.identifier) == clients.Keys
    {
      shown := RefreshClientList(clients);
      ButtonsAreKeys(shown, clients);
    }

    method OnClientConnected(server: Server, id: uint32, peer: seq<byte>)
      requires Valid() && server.Valid()
      modifies this
      ensures Valid()
      ensures Now() == D.Handled(old(Now()), D.Connected(id),
                                 if exists s <- server.sessions :: s.identifier == id then peer else UNKNOWN)
    {
      var newClient := ClientInfo(id, UNKNOWN);
      var foundSession := server.GetSession(id);
      if foundSession != null {
        newClient := newClient.(username := peer);
      }
      clients := clients[id := newClient];
      Refresh();
    }

    method OnClientRegistered(client: ClientInfo)
      requires Valid()
      modifies this
      ensures Valid() && Now() == D.Handled(old(Now()), D.RegisteredAs(client.identifier, client.username), [])
    {
      clients := clients[client.identifier := client];
      Refresh();
    }

    /** `missing`: clients.at has thrown. */
    method OnClientDisconnected(id: uint32) returns (missing: bool)
      requires Valid()
      modifies this
      ensures Valid() && Now().(missing := missing) == D.Handled(old(Now()), D.Disconnected(id), [])
      ensures missing <==> id !in old(clients)
    {
      if id !in clients {
        return true;
      }
      clients := clients - {id};
      Refresh();
      return false;
    }

    /** Only the current client's session streams, and that client is in the map. */
    ghost predicate StreamsCurrent(server: Server)
      reads this, server, server.sessions
    {
      forall s <- server.sessions ::
        s.state == Streaming ==> current == Some(s.identifier) && s.identifier in clients
    }

    /** The system of all sessions, as far as this window and the sessions on the server's list are part of it. */
    ghost predicate Mirrors(server: Server, d: D.Desk)
      reads this, server, server.sessions
    {
      Tracks(server, d) && d.window == Now().(pc := d.window.pc, missing := d.window.missing)
    }

    /** A click on a button, as the system of all sessions takes it: its handler's steps, one after another, with the
        workers coming in between. So in a reachable state no lookup fails (D.NoMissingLookup), and afterwards at most
        one session streams, the current one (D.OneStreamer). */
    method OnClientClicked(server: Server, id: uint32, ghost d: D.Desk)
      returns (missing: bool, nowStreaming: bool, ghost e: D.Desk)
      requires Valid() && server.Valid() && Mirrors(server, d)
      requires d.window.pc.Ready? && id in d.window.shown
      modifies this`current, server.sessions
      ensures Valid() && server.Valid() && Mirrors(server, e)
      ensures D.Leads(D.Clicked(d, id), e) && e.window.pc.Ready?
      ensures e.window.missing <==> d.window.missing || missing
      ensures D.Reachable(d) ==> D.Reachable(e) && !missing
      ensures !missing ==>
                current == if old(current) == Some(id) then None else if nowStreaming then Some(id) else old(current)
      ensures nowStreaming ==> old(current) != Some(id) && OnList(server, id)
      ensures !missing && !nowStreaming && old(current) != Some(id) ==>
                forall s <- server.sessions :: s.identifier == id ==> s.state == Terminated
      ensures forall s <- server.sessions :: s.identifier != id && Some(s.identifier) != old(current) ==> s.Evolved()
      ensures old(StreamsCurrent(server)) ==>
                !missing && StreamsCurrent(server)
                && forall s <- server.sessions :: s.state == Streaming ==> nowStreaming && s.identifier == id
    {
      HasButton(d, id);
      D.LeadsNowhere(D.Clicked(d, id));
      missing, nowStreaming, e := StopThenStart(server, id, D.Clicked(d, id), D.Clicked(d, id));
      D.ClickStaysReachable(d, id, e);
    }

    lemma HasButton(d: D.Desk, id: uint32)
      requires Valid() && d.window.shown == Now().shown && id in d.window.shown
      ensures id in clients
    {
      ButtonsAreKeys(shown, clients);
    }

    method StopThenStart(server: Server, id: uint32, ghost start: D.Desk, ghost d: D.Desk)
      returns (missing: bool, nowStreaming: bool, ghost e: D.Desk)
      requires server.Valid() && Mirrors(server, d) && id in clients
      requires d.window.pc == D.Stopping(id) && D.Leads(start, d)
      modifies this`current, server.sessions
      ensures server.Valid() && Mirrors(server, e) && D.Leads(start, e)
      ensures e.window.pc.Ready? && (e.window.missing <==> d.window.missing || missing)
      ensures missing ==> Dangling(old(current)) && !nowStreaming && Streamed(server, old(current).value)
      ensures !missing ==>
                current == if old(current) == Some(id) then None else if nowStreaming then Some(id) else old(current)
      ensures nowStreaming ==> old(current) != Some(id) && OnList(server, id)
      ensures !missing && !nowStreaming && old(current) != Some(id) ==>
                forall s <- server.sessions :: s.identifier == id ==> s.state == Terminated
      ensures forall s <- server.sessions :: s.identifier != id && Some(s.identifier) != old(current) ==> s.Evolved()
      ensures forall s <- server.sessions :: s.state == Streaming ==>
                || (nowStreaming && s.identifier == id)
                || (old(s.state) == Streaming && Some(s.identifier) != old(current))
    {
      nowStreaming := false;
      missing, e := StopCurrent(server, id, start, d);
      if !missing {
        nowStreaming, e := Proceed(server, id, start, e);
      }
    }

    /** The current client has no entry in the map. */
    predicate Dangling(c: Option<uint32>)
      reads this
    {
      c.Some? && c.value !in clients
    }

    /** The second part: a click on the current client is done, any other starts its session. */
    method Proceed(server: Server, id: uint32, ghost start: D.Desk, ghost d: D.Desk)
      returns (nowStreaming: bool, ghost e: D.Desk)
      requires server.Valid() && Tracks(server, d) && D.Leads(start, d) && id in clients
      requires d.window == D.AfterStop(Now().(pc := D.Stopping(id), missing := d.window.missing), id, false)
      modifies this`current, server.sessions
      ensures server.Valid() && Mirrors(server, e) && D.Leads(start, e)
      ensures e.window.pc.Ready? && e.window.missing == d.window.missing
      ensures current == if old(current) == Some(id) then None else if nowStreaming then Some(id) else old(current)
      ensures nowStreaming ==> old(current) != Some(id) && OnList(server, id)
      ensures !nowStreaming && old(current) != Some(id) ==>
                forall s <- server.sessions :: s.identifier == id ==> s.state == Terminated
      ensures forall s <- server.sessions :: !nowStreaming || s.identifier != id ==> s.Evolved()
    {
      nowStreaming, e := false, d;
      if current == Some(id) {
        current := None;
      } else {
        nowStreaming, e := StartClicked(server, id, start, d);
      }
    }

    /** The first part of the click: the session of the current client, if there is one, is told to stop. */
    method StopCurrent(server: Server, id: uint32, ghost start: D.Desk, ghost d: D.Desk)
      returns (missing: bool, ghost e: D.Desk)
      requires server.Valid() && Mirrors(server, d)
      requires d.window.pc == D.Stopping(id) && D.Leads(start, d)
      modifies server.sessions
      ensures server.Valid() && Tracks(server, e) && D.Leads(start, e)
      ensures e.window == if missing then d.window.(missing := true, pc := D.Ready)
                          else D.AfterStop(d.window, id, false)
      ensures forall s <- server.sessions :: Some(s.identifier) != current ==> s.Evolved()
      ensures forall s <- server.sessions :: Some(s.identifier) == current ==> s.state != Streaming
      ensures missing ==> Dangling(current) && Streamed(server, current.value)
    {
      missing, e := false, d;
      if current.Some? {
        var wasStreaming;
        wasStreaming, e := StopOne(server, current.value, start, d);
        missing := wasStreaming && current.value !in clients;
      } else {
        D.HandlerGoesOn(start, d);
        e := D.ClickGoesOn(d);
      }
    }

    /** The session clicked, if there is one, is told to start. */
    method StartClicked(server: Server, id: uint32, ghost start: D.Desk, ghost d: D.Desk)
      returns (nowStreaming: bool, ghost e: D.Desk)
      requires server.Valid() && Mirrors(server, d)
      requires d.window.pc == D.Starting(id) && D.Leads(start, d) && id in clients
      modifies this`current, server.sessions
      ensures server.Valid() && Mirrors(server, e) && D.Leads(start, e)
      ensures e.window.pc.Ready? && e.window.missing == d.window.missing
      ensures current == if nowStreaming then Some(id) else old(current)
      ensures nowStreaming ==> OnList(server, id)
      ensures !nowStreaming ==> forall s <- server.sessions :: s.identifier == id ==> s.state == Terminated
      ensures forall s <- server.sessions :: !nowStreaming || s.identifier != id ==> s.Evolved()
    {
      nowStreaming, e := StartOne(server, id, start, d);
      if nowStreaming {
        e := D.HandlerRecords(start, e);
        current := Some(id);
      }
    }
  }

  method StopOne(server: Server, currentId: uint32, ghost start: D.Desk, ghost d: D.Desk)
    returns (stopped: bool, ghost e: D.Desk)
    requires server.Valid() && Tracks(server, d) && D.Leads(start, d)
    requires d.window.pc.Stopping? && d.window.current == Some(currentId)
    modifies server.sessions
    ensures server.Valid() && Tracks(server, e) && D.Leads(start, e)
    ensures e.window == D.AfterStop(d.window, d.window.pc.id, stopped)
    ensures stopped ==> Streamed(server, currentId)
    ensures forall s <- server.sessions :: if s.identifier != currentId then s.Evolved() else s.state != Streaming
  {
    D.HandlerGoesOn(start, d);
    stopped, e := TellStop(server, currentId, d);
    e := OthersRun(server, start, e);
  }

  /** The session with this identifier was streaming before. */
  twostate predicate Streamed(server: Server, id: uint32)
    reads server, server.sessions
  {
    exists s <- server.sessions :: s.identifier == id && s in old(server.sessions) && old(s.state) == Streaming
  }

  predicate OnList(server: Server, id: uint32)
    reads server, server.sessions
  {
    exists s <- server.sessions :: s.identifier == id
  }

  method StartOne(server: Server, id: uint32, ghost start: D.Desk, ghost d: D.Desk)
    returns (started: bool, ghost e: D.Desk)
    requires server.Valid() && Tracks(server, d) && D.Leads(start, d)
    requires d.window.pc == D.Starting(id) && id in d.window.clients
    modifies server.sessions
    ensures server.Valid() && Tracks(server, e) && D.Leads(start, e)
    ensures e.window == d.window.(pc := if started then D.Recording(id) else D.Ready)
    ensures started ==> OnList(server, id)
    ensures !started ==> forall s <- server.sessions :: s.identifier == id ==> s.state == Terminated
    ensures forall s <- server.sessions :: !started || s.identifier != id ==> s.Evolved()
  {
    D.HandlerGoesOn(start, d);
    started, e := TellStart(server, id, d);
    e := OthersRun(server, start, e);
  }

  method StopById(server: Server, id: uint32) returns (stopped: bool)
    requires server.Valid() && |server.sessions| < U32
    modifies server.sessions
    ensures server.Valid() && Untouched(server, id)
    ensures if 1 <= id <= |server.sessions| then
              (server.sessions[id - 1].Now(), stopped) == Sessions.Stop(old(server.sessions[id - 1].Now()))
            else !stopped
  {
    stopped := false;
    var found := server.GetSession(id);
    if found != null {
      AloneAt(server, id);
      stopped := found.StopStreaming();
    }
  }

  method StartById(server: Server, id: uint32) returns (started: bool)
    requires server.Valid() && |server.sessions| < U32
    modifies server.sessions
    ensures server.Valid() && Untouched(server, id)
    ensures if 1 <= id <= |server.sessions| then
              (server.sessions[id - 1].Now(), started) == Sessions.Start(old(server.sessions[id - 1].Now()))
            else !started
  {
    started := false;
    var found := server.GetSession(id);
    if found != null {
      AloneAt(server, id);
      started := found.StartStreaming();
    }
  }

  lemma AloneAt(server: Server, id: uint32)
    requires server.Valid() && 1 <= id <= |server.sessions| < U32
    ensures server.sessions[id - 1].identifier == id
    ensures forall i :: 0 <= i < |server.sessions| && i != id - 1 ==>
                          server.sessions[i].identifier != id && server.sessions[i] != server.sessions[id - 1]
  {
  }

  /** All sessions on the list but the one with this identifier are as they were. */
  twostate predicate Untouched(server: Server, id: uint32)
    reads server, server.sessions
  {
    && server.sessions == old(server.sessions)
    && forall i :: 0 <= i < |server.sessions| && i != id - 1 ==>
                     server.sessions[i].Now() == old(server.sessions[i].Now())
  }

  /** The step of the system in which a click stops the current client's session. */
  method TellStop(server: Server, currentId: uint32, ghost d: D.Desk) returns (stopped: bool, ghost e: D.Desk)
    requires server.Valid() && Tracks(server, d)
    requires d.window.pc.Stopping? && d.window.current == Some(currentId)
    modifies server.sessions
    ensures server.Valid() && Tracks(server, e) && e == D.ClickGoesOn(d)
    ensures e.window == D.AfterStop(d.window, d.window.pc.id, stopped)
    ensures stopped ==> Streamed(server, currentId)
    ensures forall s <- server.sessions :: if s.identifier != currentId then s.Evolved() else s.state != Streaming
  {
    stopped := StopById(server, currentId);
    e := D.ClickGoesOn(d);
    if 1 <= currentId <= |server.sessions| {
      AloneAt(server, currentId);
    }
  }

  /** The step of the system in which it starts the session of the client clicked. */
  method TellStart(server: Server, id: uint32, ghost d: D.Desk) returns (started: bool, ghost e: D.Desk)
    requires server.Valid() && Tracks(server, d)
    requires d.window.pc == D.Starting(id) && id in d.window.clients
    modifies server.sessions
    ensures server.Valid() && Tracks(server, e) && e == D.ClickGoesOn(d)
    ensures e.window == d.window.(pc := if started then D.Recording(id) else D.Ready)
    ensures started ==> OnList(server, id)
    ensures !started ==> forall s <- server.sessions :: s.identifier == id ==> s.state == Terminated
    ensures forall s <- server.sessions :: !started || s.identifier != id ==> s.Evolved()
  {
    started := StartById(server, id);
    e := D.ClickGoesOn(d);
    if 1 <= id <= |server.sessions| {
      AloneAt(server, id);
      assert server.sessions[id - 1].Now() == e.sessions[id - 1];
    }
    assert forall i :: 0 <= i < |server.sessions| ==> server.sessions[i].Now() == e.sessions[i];
  }

  /** The sessions on the server's list are the first of the system, unless Stop has cleared the list. */
  ghost predicate Tracks(server: Server, d: D.Desk)
    reads server, server.sessions
  {
    && (if d.cleared then server.sessions == [] else |server.sessions| == d.listed)
    && |server.sessions| <= |d.sessions| < U32
    && forall i :: 0 <= i < |server.sessions| ==> server.sessions[i].Now() == d.sessions[i]
  }

  /** One step of one worker. */
  method OneStep(server: Server, k: nat, op: Op, ghost start: D.Desk, ghost d: D.Desk) returns (ghost e: D.Desk)
    requires server.Valid() && Tracks(server, d) && D.Leads(start, d)
    requires k < |server.sessions| && D.Allowed(server.sessions[k].Now(), op)
    modifies server.sessions[k]
    ensures server.Valid() && Tracks(server, e) && D.Leads(start, e) && e.window == d.window
    ensures server.sessions[k].Evolved()
  {
    AloneAt(server, k + 1);
    e := D.WorkerGoesOn(start, d, k + 1, op);
    server.sessions[k].WorkerStep(op);
  }

  /** Any number of steps of the workers, as moves of the system. */
  method OthersRun(server: Server, ghost start: D.Desk, ghost d: D.Desk) returns (ghost e: D.Desk)
    requires server.Valid() && Tracks(server, d) && D.Leads(start, d)
    modifies server.sessions
    ensures server.Valid() && Tracks(server, e) && D.Leads(start, e) && e.window == d.window
    ensures forall s <- server.sessions :: s.Evolved()
  {
    e := d;
    var steps: int := *;
    for i := 0 to if steps > 0 then steps else 0
      invariant server.Valid() && Tracks(server, e) && D.Leads(start, e) && e.window == d.window
      invariant forall s <- server.sessions :: s.Evolved()
    {
      var k: int := *;
      var op: Op := *;
      if 0 <= k < |server.sessions| && D.Allowed(server.sessions[k].Now(), op) {
        e := OneStep(server, k, op, start, e);
      }
    }
  }

  lemma ButtonsAreKeys(shown: seq<ClientInfo>, clients: map<uint32, ClientInfo>)
    requires KeysMatch(clients) && Displays(shown, clients)
    ensures (set x | x in shown :: x.identifier) == clients.Keys
  {
    forall k | k in clients ensures k in (set x | x in shown :: x.identifier) {
      assert clients[k] in shown;
    }
  }
}
