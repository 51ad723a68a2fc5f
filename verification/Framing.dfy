/** Messages over a socket: TLVMessage::Send and TLVMessage::TryReceive. */
module Framing {
  import opened Bytes
  import opened Tlv
  import opened Sockets

  datatype Received = Message(msg: TlvMessage) | NoMessage | LengthError

  method Memcpy(dst: array<byte>, at: nat, src: seq<byte>)
    requires at + |src| <= dst.Length
    modifies dst
    ensures dst[..] == old(dst[..at]) + src + old(dst[at + |src|..])
  {
    forall i | 0 <= i < |src| {
      dst[at + i] := src[i];
    }
  }

  lemma Assembled(s1: seq<byte>, s2: seq<byte>, s3: seq<byte>, tag: byte, length: seq<byte>, data: seq<byte>)
    requires |length| == 8 && |s1| == |s2| == |s3| == 9 + |data|
    requires s1[0] == tag
    requires s2 == s1[..1] + length + s1[9..]
    requires s3 == s2[..9] + data + s2[9 + |data|..]
    ensures s3 == [tag] + length + data
  {
  }

  /** Sends the encoding of m, all of it unless the connection fails or another thread closes the socket. */
  method Send(m: TlvMessage, socket: Socket) returns (ok: bool, ghost done: nat)
    requires HEADER + |m.data| <= VECTOR_MAX
    modifies socket`sent, socket`valid, socket`failure
    ensures done <= |Wire(m)| && socket.sent == old(socket.sent) + Wire(m)[..done]
    ensures ok ==> done == |Wire(m)| || (socket.shared && !socket.valid)
    ensures !ok ==> !socket.reliable || !old(socket.valid) || (socket.shared && !socket.valid)
    ensures socket.valid ==> old(socket.valid)
    ensures ok && !socket.shared ==> socket.valid == old(socket.valid)
  {
    var rawTag := TagByte(m.tag);
    assert IsValidTag(rawTag);  // the tag is one of the enumeration, so the guard on it never gives up
    Widths();
    StoredInNetworkOrder(|m.data|, 8);
    var length := SwapBytes(|m.data|, 8);
    var networkData := new byte[HEADER + |m.data|];
    Memcpy(networkData, 0, [rawTag]);
    ghost var tagged := networkData[..];
    Memcpy(networkData, 1, Image(length, 8));
    ghost var headed := networkData[..];
    Memcpy(networkData, 9, m.data);
    Assembled(tagged, headed, networkData[..], rawTag, Image(length, 8), m.data);
    var result;
    result, done := socket.WriteAllBytes(networkData[..]);
    return result == Success, done;
  }

  /** Takes one message off the stream: exactly what Parse finds there, unless the socket was closed meanwhile. In that
      case, too, whatever message comes back has been cut from the bytes at the front of the stream. */
  method TryReceive(socket: Socket) returns (r: Received)
    modifies socket`incoming, socket`valid, socket`failure
    ensures r.Message? && (socket.valid || !socket.shared) ==>
              Parse(old(socket.incoming)).Complete? && Parse(old(socket.incoming)).msg == r.msg
              && socket.incoming == old(socket.incoming)[Parse(old(socket.incoming)).size..]
    ensures r.LengthError? && (socket.valid || !socket.shared) ==> Parse(old(socket.incoming)).TooLong?
    ensures r.NoMessage? && old(socket.valid) && socket.reliable && !socket.shared ==>
              Parse(old(socket.incoming)).Short? || Parse(old(socket.incoming)).BadTag?
    ensures old(socket.valid) && socket.reliable && !socket.shared ==>
              (r.NoMessage? && !socket.valid <==> Parse(old(socket.incoming)).Short?)
              && (Parse(old(socket.incoming)).BadTag? ==> r.NoMessage? && socket.incoming == old(socket.incoming)[1..])
              && (Parse(old(socket.incoming)).TooLong? ==>
                    r.LengthError? && socket.incoming == old(socket.incoming)[9..])
    ensures r.Message? ==> old(socket.valid) && CutFrom(r.msg, old(socket.incoming))
    ensures |socket.incoming| <= |old(socket.incoming)|
    ensures socket.valid ==> old(socket.valid)
    ensures !r.NoMessage? && !socket.shared ==> socket.valid == old(socket.valid)
  {
    ghost var stream := socket.incoming;
    var tagBuffer := new byte[1](_ => 0);
    var result, got := socket.ReadAllBytes(tagBuffer);
    if result != Success {
      return NoMessage;
    }
    var rawTag := tagBuffer[0];
    assert got == 1 ==> tagBuffer[..] == stream[..1];
    if !IsValidTag(rawTag) {
      return NoMessage;
    }
    var tag := TagOf(rawTag);

    var lengthBuffer := new byte[8];
    ghost var afterTag := socket.incoming;
    result, got := socket.ReadAllBytes(lengthBuffer);
    if result != Success {
      return NoMessage;
    }
    var length := SwapBytes(Load(lengthBuffer[..]), 8);
    if socket.valid || !socket.shared {
      assert lengthBuffer[..] == afterTag[..8] == stream[1..9];
      LoadedFromNetworkOrder(lengthBuffer[..]);
    }
    if length == 0 {
      assert |stream| >= HEADER ==> stream[9..9] == [];
      return Message(TlvMessage(tag, []));
    }
    if length > VECTOR_MAX {
      return Received.LengthError;
    }
    r := TryReceiveValue(socket, tag, length, stream);
  }

  /** The last part of TryReceive: the value, the header being all read if the socket is still open. */
  method TryReceiveValue(socket: Socket, tag: Tag, length: nat, ghost stream: seq<byte>) returns (r: Received)
    requires 0 < length <= VECTOR_MAX && stream != [] && IsValidTag(stream[0]) && tag == TagOf(stream[0])
    requires socket.valid || !socket.shared ==>
               |stream| >= HEADER && length == Length(stream) && socket.incoming == stream[9..]
    modifies socket`incoming, socket`valid, socket`failure
    ensures r.Message? && (socket.valid || !socket.shared) ==>
              Parse(stream).Complete? && Parse(stream).msg == r.msg && socket.incoming == stream[Parse(stream).size..]
    ensures !r.LengthError?
    ensures old(socket.valid) && socket.reliable && !socket.shared ==>
              (r.NoMessage? <==> Parse(stream).Short?) && (r.NoMessage? ==> !socket.valid)
    ensures r.Message? ==> old(socket.valid) && CutFrom(r.msg, stream)
    ensures |socket.incoming| <= |old(socket.incoming)|
    ensures socket.valid ==> old(socket.valid)
    ensures r.Message? && !socket.shared ==> socket.valid == old(socket.valid)
  {
    var value := new byte[length](_ => 0);
    ghost var afterHeader, blank := socket.incoming, value[..];
    var result, got := socket.ReadAllBytes(value);
    if result != Success {
      return NoMessage;
    }
    ValueRead(stream, afterHeader, blank, value[..], got);
    return Message(TlvMessage(tag, value[..]));
  }

  lemma ValueRead(stream: seq<byte>, afterHeader: seq<byte>, blank: seq<byte>, value: seq<byte>, got: nat)
    requires |stream| >= HEADER && afterHeader == stream[9..]
    requires |blank| == |value| && forall i :: 0 <= i < |blank| ==> blank[i] == 0
    requires 0 < got <= |value| && got <= |afterHeader| && value == afterHeader[..got] + blank[got..]
    ensures ReadSoFar(value, stream, got)
    ensures got == |value| ==> value == stream[9..9 + got] && afterHeader[got..] == stream[9 + got..]
  {
    assert blank[got..] == Zeros(|value| - got);
    assert afterHeader[..got] == stream[9..9 + got];
  }

  /** The two parsers agree: on a stream of just these bytes, cut up in any way, TryReceive returns a message exactly
      when TryFromBuffer does, the same one, having consumed the size TryFromBuffer reports. */
  method BufferAndStreamAgree(buffer: seq<byte>) returns (whole: FromBuffer, streamed: Received, consumed: int)
    requires |buffer| <= VECTOR_MAX
    ensures whole.Found? <==> streamed.Message?
    ensures whole.Found? ==> whole.msg == streamed.msg && whole.size == consumed
    ensures whole.LengthError? ==> streamed.LengthError?
  {
    whole := TryFromBuffer(buffer);
    var socket := new Socket(buffer, false, true);
    streamed := TryReceive(socket);
    consumed := |buffer| - |socket.incoming|;
  }

  /** Under any split of the writes, the messages sent one after another arrive on the wire in order and unbroken. */
  method SendAll(ms: seq<TlvMessage>, socket: Socket)
    requires forall i :: 0 <= i < |ms| ==> HEADER + |ms[i].data| <= VECTOR_MAX
    requires socket.valid && socket.reliable && !socket.shared && socket.sent == []
    modifies socket`sent, socket`valid, socket`failure
    ensures socket.sent == WireAll(ms)
  {
    for i := 0 to |ms|
      invariant socket.valid && socket.sent == WireAll(ms[..i])
    {
      var ok, done := Send(ms[i], socket);
      assert Wire(ms[i])[..done] == Wire(ms[i]);
      WireAllSnoc(ms[..i], ms[i]);
      assert ms[..i + 1] == ms[..i] + [ms[i]];
    }
    assert ms[..|ms|] == ms;
  }

  lemma OneTaken(received: seq<TlvMessage>, m: TlvMessage, stream: seq<byte>, rest: seq<byte>)
    requires Parse(stream).Complete? && Parse(stream).msg == m && rest == stream[Parse(stream).size..]
    ensures (received + [m]) + Messages(rest) == received + Messages(stream)
    ensures Leftover(rest) == Leftover(stream) && |rest| < |stream|
  {
    WireOfParse(stream);
    FirstOfRest(received, m, Messages(rest), Messages(stream));
  }

  lemma FirstOfRest<T>(before: seq<T>, first: T, rest: seq<T>, both: seq<T>)
    requires both == [first] + rest
    ensures (before + [first]) + rest == before + both
  {
  }

  /** Receives until no message comes any more, as the client's connection handler does. */
  method ReceiveAll(socket: Socket) returns (received: seq<TlvMessage>)
    requires socket.valid && socket.reliable && !socket.shared
    modifies socket`incoming, socket`valid, socket`failure
    ensures received == Messages(old(socket.incoming))
    ensures |socket.incoming| <= |Leftover(old(socket.incoming))|
  {
    received := [];
    while true
      invariant socket.valid
      invariant received + Messages(socket.incoming) == Messages(old(socket.incoming))
      invariant Leftover(socket.incoming) == Leftover(old(socket.incoming))
      decreases |socket.incoming|
    {
      ghost var stream := socket.incoming;
      var r := TryReceive(socket);
      if !r.Message? {
        return;
      }
      OneTaken(received, r.msg, stream, socket.incoming);
      received := received + [r.msg];
    }
  }

  /** A whole conversation: what one end sends, under any split of its writes, the other end receives, under any
      split of its reads, as the same list of messages with nothing left over. */
  method Conversation(ms: seq<TlvMessage>) returns (received: seq<TlvMessage>, leftover: seq<byte>)
    requires forall i :: 0 <= i < |ms| ==> HEADER + |ms[i].data| <= VECTOR_MAX
    ensures received == ms && leftover == []
  {
    var sender := new Socket([], false, true);
    SendAll(ms, sender);
    var receiver := new Socket(sender.sent, false, true);
    received := ReceiveAll(receiver);
    leftover := receiver.incoming;
    StreamRoundTrip(ms);
  }

  lemma Join<T>(a: seq<T>, b: seq<T>, c: seq<T>)
    ensures a + (b + c) == (a + b) + c
  {
  }

  lemma {:induction false} WireAllSnoc(ms: seq<TlvMessage>, m: TlvMessage)
    ensures WireAll(ms + [m]) == WireAll(ms) + Wire(m)
  {
    if ms == [] {
      assert WireAll([m]) == Wire(m) + WireAll([]);
    } else {
      WireAllSnoc(ms[1..], m);
      assert ms + [m] == [ms[0]] + (ms[1..] + [m]);
      WireAllCons(ms[0], ms[1..] + [m]);
      Join(Wire(ms[0]), WireAll(ms[1..]), Wire(m));
    }
  }
}
