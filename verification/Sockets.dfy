/** A connected socket: the byte loops over short reads and writes, and framed messages on top of them. */
module Sockets {
  import opened Bytes
  import opened Tlv

  datatype IOResult = Success | ConnectionClosed | Error

  const SOCKET_ERROR := -1

  /** What GetLastError tells of a failed call: WSAECONNRESET, WSAESHUTDOWN, WSAECONNABORTED or any other code. */
  datatype Failure = NoFailure | ConnReset | Shutdown | ConnAborted | OtherFailure

  /** `sent` is what the kernel has accepted, `incoming` what the peer's end will still deliver before it ends. */
  class Socket {
    var valid: bool
    var sent: seq<byte>
    var incoming: seq<byte>
    /** How the last call of send or recv failed, if it did. */
    var failure: Failure
    /** Another thread holds the socket too and may close it at any time. */
    const shared: bool
    /** No operation on the open connection reports an error. */
    const reliable: bool

    constructor (incoming: seq<byte>, shared: bool, reliable: bool)
      ensures valid && sent == [] && this.incoming == incoming
      ensures this.shared == shared && this.reliable == reliable
    {
      valid, sent, this.incoming, failure := true, [], incoming, NoFailure;
      this.shared, this.reliable := shared, reliable;
    }

    method Close()
      modifies this`valid
      ensures !valid
    {
      if valid {
        valid := false;
      }
    }

    /** Another thread comes in after a call of send or recv, before the loop looks if the socket is still valid. */
    method OtherThreads()
      modifies this`valid
      ensures valid ==> old(valid)
      ensures !shared ==> valid == old(valid)
    {
      var closedNow: bool := *;
      if shared && closedNow {
        valid := false;
      }
    }

    /** send: accepts any non-empty part of what it is offered, or fails. */
    method WriteBytes(buffer: seq<byte>, at: nat, n: nat) returns (r: int)
      requires at + n <= |buffer| && n <= INT_MAX
      modifies this`sent, this`failure
      ensures r == SOCKET_ERROR || (0 <= r <= n && (n > 0 ==> r > 0))
      ensures failure == NoFailure <==> r != SOCKET_ERROR
      ensures sent == if r > 0 then old(sent) + buffer[at..at + r] else old(sent)
      ensures !valid ==> r == SOCKET_ERROR
      ensures valid && reliable ==> r != SOCKET_ERROR
    {
      failure := *;
      if !valid && failure == NoFailure {
        failure := OtherFailure;
      } else if valid && reliable {
        failure := NoFailure;
      }
      if failure != NoFailure {
        return SOCKET_ERROR;
      }
      if n == 0 {
        return 0;
      }
      var k: int :| 1 <= k <= n;
      sent := sent + buffer[at..at + k];
      return k;
    }

    /** recv: delivers any non-empty part of what was asked, 0 at the end of the stream, or fails. */
    method ReadBytes(buffer: array<byte>, at: nat, n: nat) returns (r: int)
      requires at + n <= buffer.Length && n <= INT_MAX
      modifies this`incoming, this`failure, buffer
      ensures r == SOCKET_ERROR || (0 <= r <= n && r <= |old(incoming)|)
      ensures failure == NoFailure <==> r != SOCKET_ERROR
      ensures r != SOCKET_ERROR ==> (r == 0 <==> n == 0 || old(incoming) == [])
      ensures incoming == if r > 0 then old(incoming)[r..] else old(incoming)
      ensures forall i :: 0 <= i < buffer.Length ==>
                buffer[i] == if at <= i < at + r then old(incoming)[i - at] else old(buffer[i])
      ensures !valid ==> r == SOCKET_ERROR
      ensures valid && reliable ==> r != SOCKET_ERROR
    {
      failure := *;
      if !valid && failure == NoFailure {
        failure := OtherFailure;
      } else if valid && reliable {
        failure := NoFailure;
      }
      if failure != NoFailure {
        return SOCKET_ERROR;
      }
      if n == 0 || incoming == [] {
        return 0;
      }
      var k: int :| 1 <= k <= n && k <= |incoming|;
      forall i | 0 <= i < k {
        buffer[at + i] := incoming[i];
      }
      incoming := incoming[k..];
      return k;
    }

    /** Whatever the sizes of the writes, a success means every byte was sent, unless the socket was closed. */
    method WriteAllBytes(buffer: seq<byte>) returns (r: IOResult, ghost done: nat)
      requires |buffer| < U64
      modifies this`sent, this`valid, this`failure
      ensures r == Success <==> failure == NoFailure
      ensures r == Error <==> failure == OtherFailure
      ensures old(valid) && reliable ==> r == Success
      ensures r == Error && !shared ==> valid == old(valid)
      ensures done <= |buffer| && sent == old(sent) + buffer[..done]
      ensures r == Success ==> done == |buffer| || (shared && !valid)
      ensures r != Success ==> !reliable || !old(valid) || (shared && !valid)
      ensures r == Success ==> old(valid) && (buffer != [] ==> done > 0)
      ensures r == ConnectionClosed ==> !valid
      ensures valid ==> old(valid)
      ensures r == Success && !shared ==> valid == old(valid)
    {
      var bytesSent := 0;
      done := 0;
      var more := true;
      while more
        invariant bytesSent <= |buffer| && done == bytesSent
        invariant !more ==> old(valid) && (buffer != [] ==> done > 0) && failure == NoFailure
        invariant !shared ==> valid == old(valid)
        invariant sent == old(sent) + buffer[..bytesSent]
        invariant valid ==> old(valid)
        invariant more ==> valid == old(valid)
        invariant !more ==> bytesSent == |buffer| || (shared && !valid)
        invariant |buffer| > 0 && more ==> bytesSent < |buffer|
        decreases |buffer| - bytesSent, more
      {
        var remaining := |buffer| - bytesSent;
        var writableBytes := if remaining < INT_MAX then remaining else INT_MAX;
        assert |buffer| > 0 ==> 1 <= writableBytes <= INT_MAX;
        var writeResult := WriteBytes(buffer, bytesSent, writableBytes);
        if writeResult == SOCKET_ERROR {
          if failure == Shutdown || failure == ConnReset || failure == ConnAborted {
            Close();
            return ConnectionClosed, done;
          }
          return Error, done;
        }
        bytesSent := bytesSent + writeResult;
        done := bytesSent;
        OtherThreads();
        more := bytesSent < |buffer| && valid;
      }
      return Success, done;
    }

    /** Whatever the sizes of the reads, a success means the buffer holds the next bytes of the stream. */
    method ReadAllBytes(buffer: array<byte>) returns (r: IOResult, ghost got: nat)
      requires buffer.Length < U64
      modifies this`incoming, this`valid, this`failure, buffer
      ensures r == Error <==> failure != NoFailure && failure != ConnReset
      ensures r == ConnectionClosed && failure == NoFailure ==> got == |old(incoming)| || buffer.Length == 0
      ensures r == Success ==> failure == NoFailure
      ensures old(valid) && reliable && r != Success ==>
                r == ConnectionClosed && (buffer.Length == 0 || (incoming == [] && got < buffer.Length))
      ensures r == Error && !shared ==> valid == old(valid)
      ensures old(valid) && reliable && !shared && (|old(incoming)| < buffer.Length || buffer.Length == 0) ==>
                r == ConnectionClosed  // the peer has hung up
      ensures got <= buffer.Length && got <= |old(incoming)| && incoming == old(incoming)[got..]
      ensures buffer[..] == old(incoming)[..got] + old(buffer[got..])
      ensures r == Success ==> got == buffer.Length || (shared && !valid)
      ensures r == Success ==> buffer.Length > 0  // asking for nothing reads as the end of the stream
      ensures r == Success ==> got > 0 && old(valid)
      ensures r == ConnectionClosed ==> !valid
      ensures valid ==> old(valid)
      ensures r == Success && !shared ==> valid == old(valid)
    {
      var bytesRead := 0;
      got := 0;
      var more := true;
      ghost var stream, before := incoming, buffer[..];
      while more
        invariant bytesRead <= buffer.Length && got == bytesRead && (!more ==> buffer.Length > 0)
        invariant !more ==> got > 0 && old(valid) && failure == NoFailure
        invariant !shared ==> valid == old(valid)
        invariant bytesRead <= |stream| && incoming == stream[bytesRead..]
        invariant forall i :: 0 <= i < buffer.Length ==> buffer[i] == if i < bytesRead then stream[i] else before[i]
        invariant valid ==> old(valid)
        invariant more ==> valid == old(valid)
        invariant !more ==> bytesRead == buffer.Length || (shared && !valid)
        invariant buffer.Length > 0 && more ==> bytesRead < buffer.Length
        decreases buffer.Length - bytesRead, more
      {
        var remaining := buffer.Length - bytesRead;
        var readableBytes := if remaining < INT_MAX then remaining else INT_MAX;
        var readResult := ReadBytes(buffer, bytesRead, readableBytes);
        if readResult == 0 || (readResult == SOCKET_ERROR && failure == ConnReset) {
          Close();
          return ConnectionClosed, got;
        } else if readResult == SOCKET_ERROR {
          return Error, got;
        }
        bytesRead := bytesRead + readResult;
        got := bytesRead;
        OtherThreads();
        more := bytesRead < buffer.Length && valid;
      }
      return Success, got;
    }
  }
}
