/** The order of the client list in the server's window. */
module ClientList {
  import opened Bytes

  datatype ClientInfo = ClientInfo(identifier: uint32, username: seq<byte>)

  /** operator< of std::string */
  predicate TextLess(s: seq<byte>, t: seq<byte>) {
    if t == [] then false
    else if s == [] then true
    else if s[0] != t[0] then s[0] < t[0]
    else TextLess(s[1..], t[1..])
  }

  predicate Less(first: ClientInfo, second: ClientInfo) {
    if first.username == second.username then first.identifier < second.identifier
    else TextLess(first.username, second.username)
  }

  lemma {:induction false} TextLessTransitive(s: seq<byte>, t: seq<byte>, u: seq<byte>)
    requires TextLess(s, t) && TextLess(t, u)
    ensures TextLess(s, u)
  {
    if s != [] && s[0] == t[0] == u[0] {
      TextLessTransitive(s[1..], t[1..], u[1..]);
    }
  }

  lemma {:induction false} TextLessTotal(s: seq<byte>, t: seq<byte>)
    ensures !(TextLess(s, t) && TextLess(t, s))
    ensures s != t ==> TextLess(s, t) || TextLess(t, s)
    ensures s == t ==> !TextLess(s, t)
  {
    if s != [] && t != [] && s[0] == t[0] {
      TextLessTotal(s[1..], t[1..]);
      if s[1..] == t[1..] {
        assert s == [s[0]] + s[1..] == t;
      }
    }
  }

  /** The comparator is a strict total order: entries that differ are ordered one way and not the other. */
  lemma LessIsTotal(a: ClientInfo, b: ClientInfo)
    ensures !(Less(a, b) && Less(b, a))
    ensures a != b <==> Less(a, b) || Less(b, a)
  {
    TextLessTotal(a.username, b.username);
  }

  lemma LessIsTransitive(a: ClientInfo, b: ClientInfo, c: ClientInfo)
    requires Less(a, b) && Less(b, c)
    ensures Less(a, c)
  {
    TextLessTotal(a.username, b.username);
    TextLessTotal(b.username, c.username);
    if a.username != b.username && b.username != c.username {
      TextLessTransitive(a.username, b.username, c.username);
      TextLessTotal(a.username, c.username);
    }
  }

  /** s and t agree on their first k bytes, and there s ends or has the lesser byte. */
  predicate LessAt(s: seq<byte>, t: seq<byte>, k: nat) {
    k <= |s| && k < |t| && s[..k] == t[..k] && (k < |s| ==> s[k] < t[k])
  }

  lemma {:induction false} LessTextIf(s: seq<byte>, t: seq<byte>, k: nat)
    requires LessAt(s, t, k)
    ensures TextLess(s, t)
  {
    if k > 0 {
      assert s[0] == s[..k][0] == t[..k][0] == t[0];
      assert s[1..][..k - 1] == s[..k][1..] == t[..k][1..] == t[1..][..k - 1];
      LessTextIf(s[1..], t[1..], k - 1);
    }
  }

  lemma {:induction false} LessTextWhere(s: seq<byte>, t: seq<byte>) returns (k: nat)
    requires TextLess(s, t)
    ensures LessAt(s, t, k)
  {
    k := 0;
    if s != [] && s[0] == t[0] {
      var j := LessTextWhere(s[1..], t[1..]);
      k := j + 1;
      assert s[..k] == [s[0]] + s[1..][..j] && t[..k] == [t[0]] + t[1..][..j];
    }
  }

  /** Names are in the order of a dictionary of bytes; clients of the same name, in that of their identifiers. */
  lemma LessIff(a: ClientInfo, b: ClientInfo)
    ensures Less(a, b) <==>
              (exists k :: LessAt(a.username, b.username, k))
              || (a.username == b.username && a.identifier < b.identifier)
  {
    TextLessTotal(a.username, b.username);
    if TextLess(a.username, b.username) {
      var k := LessTextWhere(a.username, b.username);
    }
    if exists k :: LessAt(a.username, b.username, k) {
      var k :| LessAt(a.username, b.username, k);
      LessTextIf(a.username, b.username, k);
    }
  }

  ghost predicate Sorted(s: seq<ClientInfo>) {
    forall i, j :: 0 <= i < j < |s| ==> Less(s[i], s[j])
  }

  lemma SortedTail(s: seq<ClientInfo>)
    requires Sorted(s) && s != []
    ensures Sorted(s[1..]) && s[0] !in s[1..]
    ensures forall x <- s[1..] :: Less(s[0], x)
  {
    forall x | x in s[1..] ensures Less(s[0], x) {
      var i :| 0 <= i < |s| - 1 && s[1..][i] == x;
      assert Less(s[0], s[i + 1]);
    }
    if s[0] in s[1..] {
      LessIsTotal(s[0], s[0]);
    }
  }

  /** A sorted list is determined by the entries on it, whatever order they came in. */
  lemma {:induction false} SortedUnique(s: seq<ClientInfo>, t: seq<ClientInfo>)
    requires Sorted(s) && Sorted(t)
    requires forall x :: x in s <==> x in t
    ensures s == t
  {
    assert |t| > 0 ==> t[0] in t;
    if s != [] {
      assert s[0] in t;
      assert t[0] in s;
      SortedTail(s);
      SortedTail(t);
      LessIsTotal(s[0], t[0]);
      assert s == [s[0]] + s[1..];
      assert t == [t[0]] + t[1..];
      forall x ensures x in s[1..] <==> x in t[1..] {
        assert x in s <==> x == s[0] || x in s[1..];
        assert x in t <==> x == t[0] || x in t[1..];
      }
      SortedUnique(s[1..], t[1..]);
    }
  }

  function Insert(x: ClientInfo, s: seq<ClientInfo>): seq<ClientInfo> {
    if s == [] then [x]
    else if Less(x, s[0]) then [x] + s
    else [s[0]] + Insert(x, s[1..])
  }

  lemma {:induction false} InsertHolds(x: ClientInfo, s: seq<ClientInfo>)
    ensures forall y :: y in Insert(x, s) <==> y == x || y in s
  {
    if s != [] && !Less(x, s[0]) {
      InsertHolds(x, s[1..]);
      assert s == [s[0]] + s[1..];
    }
  }

  lemma SortedCons(x: ClientInfo, s: seq<ClientInfo>)
    requires Sorted(s) && forall y <- s :: Less(x, y)
    ensures Sorted([x] + s)
  {
  }

  lemma {:induction false} InsertSorts(x: ClientInfo, s: seq<ClientInfo>)
    requires Sorted(s) && x !in s
    ensures Sorted(Insert(x, s))
  {
    if s == [] {
    } else if Less(x, s[0]) {
      forall y | y in s ensures Less(x, y) {
        if y != s[0] {
          SortedTail(s);
          assert y in s[1..];
          LessIsTransitive(x, s[0], y);
        }
      }
      SortedCons(x, s);
    } else {
      SortedTail(s);
      InsertSorts(x, s[1..]);
      InsertHolds(x, s[1..]);
      LessIsTotal(x, s[0]);
      SortedCons(s[0], Insert(x, s[1..]));
    }
  }

  /** std::sort with that comparator, on entries that all differ. */
  method Sort(v: seq<ClientInfo>) returns (r: seq<ClientInfo>)
    requires forall i, j :: 0 <= i < j < |v| ==> v[i] != v[j]
    ensures Sorted(r) && |r| == |v|
    ensures forall x :: x in r <==> x in v
  {
    r := [];
    for i := 0 to |v|
      invariant Sorted(r) && |r| == i
      invariant forall x :: x in r <==> x in v[..i]
    {
      InsertSorts(v[i], r);
      InsertHolds(v[i], r);
      InsertLonger(v[i], r);
      r := Insert(v[i], r);
      assert v[..i + 1] == v[..i] + [v[i]];
    }
    assert v[..|v|] == v;
  }

  lemma {:induction false} InsertLonger(x: ClientInfo, s: seq<ClientInfo>)
    ensures |Insert(x, s)| == |s| + 1
  {
    if s != [] && !Less(x, s[0]) {
      InsertLonger(x, s[1..]);
    }
  }

  ghost predicate KeysMatch(clients: map<uint32, ClientInfo>) {
    forall k <- clients :: clients[k].identifier == k
  }

  /** What the sidebar shows for a map of clients: all its values, once each, in order. */
  ghost predicate Displays(shown: seq<ClientInfo>, clients: map<uint32, ClientInfo>) {
    && Sorted(shown) && |shown| == |clients|
    && forall x :: x in shown <==> x.identifier in clients && clients[x.identifier] == x
  }

  lemma DisplayUnique(s: seq<ClientInfo>, t: seq<ClientInfo>, clients: map<uint32, ClientInfo>)
    requires Displays(s, clients) && Displays(t, clients)
    ensures s == t
  {
    SortedUnique(s, t);
  }

  /** RefreshClientList up to the buttons: the map is walked in any order, and the result does not depend on it. */
  method RefreshClientList(clients: map<uint32, ClientInfo>) returns (shown: seq<ClientInfo>)
    requires KeysMatch(clients)
    ensures Displays(shown, clients)
  {
    var sortedClients: seq<ClientInfo> := [];
    var rest := clients.Keys;
    while rest != {}
      invariant rest <= clients.Keys && |sortedClients| + |rest| == |clients|
      invariant forall i :: 0 <= i < |sortedClients| ==>
                              var x := sortedClients[i];
                              x.identifier in clients && x.identifier !in rest && clients[x.identifier] == x
      invariant forall k :: k in clients && k !in rest ==> clients[k] in sortedClients
      invariant forall i, j :: 0 <= i < j < |sortedClients| ==> sortedClients[i] != sortedClients[j]
      decreases rest
    {
      var k :| k in rest;
      sortedClients := sortedClients + [clients[k]];
      rest := rest - {k};
    }
    shown := Sort(sortedClients);
  }
}
