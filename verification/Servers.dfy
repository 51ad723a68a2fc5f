/** The server's list of sessions. */
module Servers {
  import opened Bytes
  import opened Sessions

  /** The identifier of the session accepted after n others: ++sessionId on a 32-bit unsigned long. */
  function NthIdentifier(n: nat): uint32 {
    (n + 1) % U32
  }

  function Clients(accepted: seq<bool>): nat {
    if accepted == [] then 0
    else Clients(accepted[..|accepted| - 1]) + if accepted[|accepted| - 1] then 1 else 0
  }

  lemma ClientsStep(accepted: seq<bool>, i: nat)
    requires i < |accepted|
    ensures Clients(accepted[..i + 1]) == Clients(accepted[..i]) + if accepted[i] then 1 else 0
  {
    assert accepted[..i + 1][..i] == accepted[..i];
  }

  class Server {
    var listening: bool
    var sessions: seq<Session>

    ghost predicate Valid()
      reads this, sessions
    {
      && (forall i :: 0 <= i < |sessions| ==> sessions[i].identifier == NthIdentifier(i))
      && (forall s <- sessions :: s.Valid())
    }

    constructor ()
      ensures Valid() && listening && sessions == []
    {
      listening, sessions := true, [];
    }

    method Add(identifier: uint32)
      requires Valid() && identifier == NthIdentifier(|sessions|)
      modifies this`sessions
      ensures Valid() && |sessions| == |old(sessions)| + 1 && sessions[..|old(sessions)|] == old(sessions)
      ensures fresh(sessions[|old(sessions)|])
    {
      var session := new Session(identifier);
      sessions := sessions + [session];
    }

    /** Server::Run up to the closing of the server's socket, given whether Listen succeeds and what the calls of Accept
        return until then: it throws, or makes one session for every client accepted, in order, while the workers of
        those already there run on. */
    method Run(listens: bool, accepted: seq<bool>) returns (thrown: bool)
      requires Valid() && sessions == []
      modifies this`sessions
      ensures Valid() && fresh(sessions) && (thrown <==> !listens)
      ensures |sessions| == if listens && listening then Clients(accepted) else 0
    {
      if !listens {
        return true;
      }
      thrown := false;
      var sessionId: uint32 := 0;
      var i := 0;
      while i < |accepted| && listening
        invariant Valid() && fresh(sessions) && i <= |accepted| && sessionId == |sessions| % U32
        invariant |sessions| == Clients(accepted[..i]) && (listening || i == 0)
      {
        if accepted[i] {
          sessionId := (sessionId + 1) % U32;
          Add(sessionId);
        }
        WorkersRun(sessions);
        ClientsStep(accepted, i);
        i := i + 1;
      }
      assert accepted[..|accepted|] == accepted;
    }

    /** The first session on the list with the identifier. Below 2^32 sessions the identifiers are 1 to n in list order,
        so it is the one such session or none. */
    method GetSession(id: uint32) returns (r: Session?)
      requires Valid()
      ensures r == null <==> forall s <- sessions :: s.identifier != id
      ensures r != null ==>
                exists k :: 0 <= k < |sessions| && sessions[k] == r && r.identifier == id
                            && forall j :: 0 <= j < k ==> sessions[j].identifier != id
      ensures |sessions| < U32 ==> (r != null <==> 1 <= id <= |sessions|)
      ensures |sessions| < U32 && r != null ==>
                r == sessions[id - 1] && forall s <- sessions :: s.identifier == id ==> s == r
    {
      assert |sessions| < U32 ==> forall i :: 0 <= i < |sessions| ==> sessions[i].identifier == i + 1;
      assert 1 <= id <= |sessions| < U32 ==> sessions[id - 1].identifier == id;
      for i := 0 to |sessions|
        invariant forall j :: 0 <= j < i ==> sessions[j].identifier != id
      {
        if sessions[i].identifier == id {
          return sessions[i];
        }
      }
      return null;
    }

    /** Server::Stop with no accept in flight. The workers run on between any two of its steps; still every session is
        terminated by the time it is joined, so the guard of Join never throws. */
    method Stop() returns (thrown: bool)
      requires Valid()
      modifies this, sessions
      ensures Valid() && !thrown && sessions == [] && !listening
      ensures forall s <- old(sessions) :: s.Valid() && s.state == Terminated && !s.open
      ensures old(sessions) == [] && !old(listening) ==> unchanged(this)  // so stopping twice is stopping once
    {
      listening := false;
      TerminateAll(sessions);
      thrown := JoinAll(sessions);
      sessions := [];
    }
  }

  method TerminateAll(sessions: seq<Session>)
    requires forall s <- sessions :: s.Valid()
    modifies set s | s in sessions
    ensures forall s <- sessions :: s.Valid() && s.state == Terminated
  {
    for i := 0 to |sessions|
      invariant forall s <- sessions :: s.Valid()
      invariant forall j :: 0 <= j < i ==> sessions[j].state == Terminated
    {
      sessions[i].Terminate();
      WorkersRun(sessions);
    }
  }

  method JoinAll(sessions: seq<Session>) returns (thrown: bool)
    requires forall s <- sessions :: s.Valid() && s.state == Terminated
    modifies set s | s in sessions
    ensures !thrown
    ensures forall s <- sessions :: s.Valid() && s.state == Terminated
  {
    for i := 0 to |sessions|
      invariant forall s <- sessions :: s.Valid() && s.state == Terminated
    {
      var r := sessions[i].Join();
      if r == Thrown {
        return true;
      }
      WorkersRun(sessions);
    }
    return false;
  }

  /** Two Stops in a row end as the first does; the second, finding nothing to terminate or join, changes nothing. */
  method StopTwice(server: Server) returns (thrown: bool)
    requires server.Valid()
    modifies server, server.sessions
    ensures !thrown && server.sessions == [] && !server.listening
    ensures forall s <- old(server.sessions) :: s.Valid() && s.state == Terminated && !s.open
  {
    thrown := server.Stop();
    label once:
    thrown := server.Stop();
    assert unchanged@once(server) && forall s <- old(server.sessions) :: unchanged@once(s);
  }

  /** With 2^32 sessions or more, the identifiers come round again and two sessions share one. */
  lemma IdentifiersDistinctIff(n: nat)
    ensures (forall i, j :: 0 <= i < j < n ==> NthIdentifier(i) != NthIdentifier(j)) <==> n <= U32
  {
    if n > U32 {
      assert NthIdentifier(0) == NthIdentifier(U32);
    } else {
      forall i, j | 0 <= i < j < n ensures NthIdentifier(i) != NthIdentifier(j) {
        if j + 1 < U32 {
          assert NthIdentifier(i) == i + 1 && NthIdentifier(j) == j + 1;
        } else {
          assert NthIdentifier(i) == i + 1 && NthIdentifier(j) == 0;
        }
      }
    }
  }
}
