/** The tag-length-value wire format: framing, the stream parser and the buffer parser. */
module Tlv {
  import opened Bytes

  datatype Tag = Hello | H264Packet | Ok | GetStreamParams | StreamParams | InitializeStream | StreamFrame | EndStream

  datatype TlvMessage = TlvMessage(tag: Tag, data: seq<byte>)

  const HEADER: int := 9
  /** The largest size a std::vector<uint8_t> can have; asking for more throws std::length_error. */
  const VECTOR_MAX: int := 0x7FFF_FFFF_FFFF_FFFF

  function TagByte(tag: Tag): byte {
    match tag
    case Hello => 0
    case H264Packet => 1
    case Ok => 2
    case GetStreamParams => 3
    case StreamParams => 4
    case InitializeStream => 5
    case StreamFrame => 6
    case EndStream => 7
  }

  /** The enumeration, in the order of its declaration. */
  const TAGS := [Hello, H264Packet, Ok, GetStreamParams, StreamParams, InitializeStream, StreamFrame, EndStream]

  /** A tag on the wire is its place in the enumeration, and a byte is valid if it is such a place. */
  lemma TagsInOrder(raw: byte)
    ensures IsValidTag(raw) <==> raw < |TAGS|
    ensures raw < |TAGS| ==> TagByte(TAGS[raw]) == raw && TagOf(raw) == TAGS[raw]
  {
  }

  predicate IsValidTag(raw: byte) {
    raw < 8
  }

  function TagOf(raw: byte): (tag: Tag)
    requires IsValidTag(raw)
    ensures TagByte(tag) == raw
  {
    match raw
    case 0 => Hello
    case 1 => H264Packet
    case 2 => Ok
    case 3 => GetStreamParams
    case 4 => StreamParams
    case 5 => InitializeStream
    case 6 => StreamFrame
    case 7 => EndStream
  }

  /** A payload that a vector can hold; its size then fits the 64-bit length field. */
  predicate Representable(m: TlvMessage) {
    |m.data| <= VECTOR_MAX
  }

  function Wire(m: TlvMessage): seq<byte> {
    [TagByte(m.tag)] + BigEndian(|m.data|, 8) + m.data
  }

  function WireAll(ms: seq<TlvMessage>): seq<byte> {
    if ms == [] then [] else Wire(ms[0]) + WireAll(ms[1..])
  }

  /** What the bytes at the front of a stream amount to, once the stream ends after them. */
  datatype Parsed =
    | Complete(msg: TlvMessage, size: nat)
    | BadTag
    | Short
    | TooLong  // a whole header with a valid tag whose length no vector can hold

  function Length(s: seq<byte>): nat
    requires |s| >= HEADER
  {
    FromBigEndian(s[1..9])
  }

  function Parse(s: seq<byte>): Parsed {
    if s == [] then Short
    else if !IsValidTag(s[0]) then BadTag
    else if |s| < HEADER then Short
    else if Length(s) > VECTOR_MAX then TooLong
    else if |s| < HEADER + Length(s) then Short
    else Complete(TlvMessage(TagOf(s[0]), s[9..9 + Length(s)]), HEADER + Length(s))
  }

  // ---- reads cut short by the closing of the socket ----

  function Zeros(n: nat): (z: seq<byte>)
    ensures |z| == n
  {
    seq(n, _ => 0)
  }

  /** The first k bytes of `full`, the rest left as it was initialised. */
  predicate Padded(data: seq<byte>, full: seq<byte>, k: nat) {
    0 < k <= |full| && data == full[..k] + Zeros(|full| - k)
  }

  /** What a read of m that the closing of the socket cuts short can come back with. The tag is a single byte, so it is
      whole. Either the length was cut short and came out as 0, or the value was. */
  predicate TornOf(t: TlvMessage, m: TlvMessage) {
    t.tag == m.tag && (t.data == [] || exists k :: 0 < k <= |m.data| && Padded(t.data, m.data, k))
  }

  /** k bytes of a value have been read off the stream. */
  predicate ReadSoFar(data: seq<byte>, s: seq<byte>, k: nat) {
    0 < k <= |data| && HEADER + k <= |s| && data == s[9..9 + k] + Zeros(|data| - k)
  }

  /** The same said of the bytes on the stream. */
  ghost predicate CutFrom(t: TlvMessage, s: seq<byte>) {
    && s != [] && IsValidTag(s[0]) && t.tag == TagOf(s[0])
    && (t.data == [] || (|s| >= HEADER && |t.data| == Length(s) && exists k: nat :: ReadSoFar(t.data, s, k)))
  }

  /** With m, or as much of it as there is, at the front of the stream. */
  lemma CutFromIsTornOf(t: TlvMessage, m: TlvMessage, s: seq<byte>)
    requires Representable(m) && (s <= Wire(m) || Wire(m) <= s)
    requires CutFrom(t, s)
    ensures TornOf(t, m)
  {
    assert s[0] == Wire(m)[0];
    if t.data != [] {
      var k: nat :| ReadSoFar(t.data, s, k);
      HeaderOfFront(m, s);
      assert forall i :: 0 <= i < k ==> s[9 + i] == Wire(m)[9 + i] == m.data[i];
      assert s[9..9 + k] == m.data[..k];
      assert Padded(t.data, m.data, k);
    }
  }

  lemma HeaderOfFront(m: TlvMessage, s: seq<byte>)
    requires Representable(m) && |s| >= HEADER && (s <= Wire(m) || Wire(m) <= s)
    ensures Length(s) == |m.data|
  {
    WireHeader(m, Wire(m));
    assert s[1..9] == Wire(m)[1..9];
  }

  lemma WireHeader(m: TlvMessage, s: seq<byte>)
    requires Representable(m)
    requires Wire(m) <= s
    ensures s[0] == TagByte(m.tag) && Length(s) == |m.data| && s[9..9 + |m.data|] == m.data
  {
    Widths();
    BigEndianRoundTrip(|m.data|, 8);
    assert s[1..9] == Wire(m)[1..9] == BigEndian(|m.data|, 8);
    assert s[9..9 + |m.data|] == Wire(m)[9..];
  }

  lemma FrontIs(s: seq<byte>, tag: byte, length: seq<byte>, data: seq<byte>)
    requires |length| == 8 && |s| >= HEADER + |data|
    requires s[0] == tag && s[1..9] == length && s[9..9 + |data|] == data
    ensures [tag] + length + data <= s
  {
    assert s == [s[0]] + s[1..9] + s[9..9 + |data|] + s[9 + |data|..];
  }

  /** What is where in an encoding: the tag, then the length, of which this is octet i from the most significant on, and
      the value. */
  lemma WireLayout(m: TlvMessage, i: nat)
    requires i < 8
    ensures |Wire(m)| == 9 + |m.data| && Wire(m)[9..] == m.data
    ensures Wire(m)[0] < |TAGS| && TAGS[Wire(m)[0]] == m.tag
    ensures Wire(m)[1 + i] == |m.data| / Pow256(7 - i) % 256
  {
    BigEndianOctet(|m.data|, 8, i);
  }

  /** The stream parser finds m exactly where the stream starts with the encoding of m. */
  lemma ParseIffEncodingIsPrefix(m: TlvMessage, n: nat, s: seq<byte>)
    requires Representable(m)
    ensures Parse(s) == Complete(m, n) <==> n == |Wire(m)| && Wire(m) <= s
  {
    if Wire(m) <= s {
      WireHeader(m, s);
    }
    if Parse(s) == Complete(m, n) {
      BigEndianOfFrom(s[1..9]);
      FrontIs(s, TagByte(m.tag), BigEndian(|m.data|, 8), m.data);
    }
  }

  /** No encoding is a prefix of another: the messages a byte stream carries are determined by its bytes. */
  lemma PrefixFree(m1: TlvMessage, m2: TlvMessage, s: seq<byte>)
    requires Representable(m1) && Representable(m2)
    requires Wire(m1) <= s && Wire(m2) <= s
    ensures m1 == m2
  {
    ParseIffEncodingIsPrefix(m1, |Wire(m1)|, s);
    ParseIffEncodingIsPrefix(m2, |Wire(m2)|, s);
  }

  lemma ParseOfWire(m: TlvMessage, rest: seq<byte>)
    requires Representable(m)
    ensures Parse(Wire(m) + rest) == Complete(m, |Wire(m)|)
    ensures (Wire(m) + rest)[|Wire(m)|..] == rest
  {
    ParseIffEncodingIsPrefix(m, |Wire(m)|, Wire(m) + rest);
  }

  lemma WireOfParse(s: seq<byte>)
    requires Parse(s).Complete?
    ensures Representable(Parse(s).msg) && s == Wire(Parse(s).msg) + s[Parse(s).size..]
    ensures 0 < Parse(s).size <= |s|
  {
    ParseIffEncodingIsPrefix(Parse(s).msg, Parse(s).size, s);
  }

  /** The messages that a receiver calling TryReceive again and again takes off a stream, and what it leaves. */
  function Messages(s: seq<byte>): seq<TlvMessage>
    decreases |s|
  {
    match Parse(s)
    case Complete(m, n) => [m] + Messages(s[n..])
    case _ => []
  }

  function Leftover(s: seq<byte>): seq<byte>
    decreases |s|
  {
    match Parse(s)
    case Complete(m, n) => Leftover(s[n..])
    case _ => s
  }

  lemma WireAllSplit(ms: seq<TlvMessage>, rest: seq<byte>)
    requires ms != []
    ensures WireAll(ms) + rest == Wire(ms[0]) + (WireAll(ms[1..]) + rest)
  {
  }

  lemma TakeFirst(m: TlvMessage, s: seq<byte>, tail: seq<byte>)
    requires Representable(m) && s == Wire(m) + tail
    ensures Messages(s) == [m] + Messages(tail) && Leftover(s) == Leftover(tail)
  {
    ParseOfWire(m, tail);
  }

  /** Round trip for every list of messages, whatever follows it on the stream. */
  lemma {:induction false} MessagesOfWireAll(ms: seq<TlvMessage>, rest: seq<byte>)
    requires forall i :: 0 <= i < |ms| ==> Representable(ms[i])
    ensures Messages(WireAll(ms) + rest) == ms + Messages(rest)
    ensures Leftover(WireAll(ms) + rest) == Leftover(rest)
  {
    if ms == [] {
      assert WireAll(ms) + rest == rest;
      assert ms + Messages(rest) == Messages(rest);
    } else {
      MessagesOfWireAll(ms[1..], rest);
      WireAllSplit(ms, rest);
      TakeFirst(ms[0], WireAll(ms) + rest, WireAll(ms[1..]) + rest);
      Regroup(ms, Messages(rest));
    }
  }

  lemma Regroup<T>(s: seq<T>, t: seq<T>)
    requires s != []
    ensures s + t == [s[0]] + (s[1..] + t)
  {
  }

  lemma StreamRoundTrip(ms: seq<TlvMessage>)
    requires forall i :: 0 <= i < |ms| ==> Representable(ms[i])
    ensures Messages(WireAll(ms)) == ms && Leftover(WireAll(ms)) == []
  {
    MessagesOfWireAll(ms, []);
    assert WireAll(ms) + [] == WireAll(ms);
  }

  /** Conversely, what is parsed off a stream re-encodes to exactly the bytes consumed. */
  lemma {:induction false} WireAllOfMessages(s: seq<byte>)
    ensures s == WireAll(Messages(s)) + Leftover(s)
    ensures !Parse(Leftover(s)).Complete?
    decreases |s|
  {
    if Parse(s).Complete? {
      var m, t := Parse(s).msg, s[Parse(s).size..];
      WireOfParse(s);
      WireAllOfMessages(t);
      WireAllCons(m, Messages(t));
    }
  }

  lemma WireAllCons(m: TlvMessage, ms: seq<TlvMessage>)
    ensures WireAll([m] + ms) == Wire(m) + WireAll(ms)
  {
    assert ([m] + ms)[1..] == ms;
  }

  datatype FromBuffer = Found(msg: TlvMessage, size: nat) | NotFound | LengthError

  /** The random-access parser. Its size check adds in size_t, so it can wrap; then the allocation throws. */
  method TryFromBuffer(buffer: seq<byte>) returns (r: FromBuffer)
    requires |buffer| <= VECTOR_MAX
    ensures r.Found? <==> Parse(buffer).Complete?
    ensures r.Found? ==> Parse(buffer) == Complete(r.msg, r.size)
    ensures r == LengthError <==> |buffer| >= HEADER && IsValidTag(buffer[0]) && HEADER + Length(buffer) >= U64
  {
    if |buffer| < HEADER {
      return NotFound;
    }
    var length := SwapBytes(Load(buffer[1..9]), 8);
    LoadedFromNetworkOrder(buffer[1..9]);
    FromBigEndianBound(buffer[1..9]);
    Widths();
    assert length == Length(buffer) < U64;
    if |buffer| < (HEADER + length) % U64 {
      return NotFound;
    }
    var rawTag := buffer[0];
    if !IsValidTag(rawTag) {
      return NotFound;
    }
    var tag := TagOf(rawTag);
    if length == 0 {
      assert buffer[9..9 + length] == [];
      return Found(TlvMessage(tag, []), HEADER);
    }
    if length > VECTOR_MAX {
      return LengthError;
    }
    return Found(TlvMessage(tag, buffer[9..9 + length]), HEADER + length);
  }
}
