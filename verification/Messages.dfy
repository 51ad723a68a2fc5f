module Options {
  datatype Option<+T> = None | Some(value: T)
}

/** The typed messages and their payload codecs. */
module Messages {
  import opened Bytes
  import opened Options
  import opened Tlv
  import opened Resolution
  import Framing

  /** A frame rate and a resolution, as offered by the client and as settled by the server. */
  datatype Params = Params(frameRate: int32, resolution: ScreenResolution)

  datatype Encoding = BMP | PNG | JPG | GIF | TIF

  datatype Message =
    | HelloMsg(username: seq<byte>)
    | OkMsg
    | GetStreamParamsMsg
    | StreamParamsMsg(params: Params)
    | InitializeStreamMsg(params: Params)
    | H264PacketMsg(width: int32, height: int32, image: seq<byte>)
    | StreamFrameMsg(format: Encoding, image: seq<byte>)
    | EndStreamMsg

  function EncodingByte(e: Encoding): byte {
    match e
    case BMP => 0
    case PNG => 1
    case JPG => 2
    case GIF => 3
    case TIF => 4
  }

  function EncodingOf(b: byte): (e: Option<Encoding>)
    ensures e.Some? <==> b < 5
    ensures e.Some? ==> EncodingByte(e.value) == b
  {
    if b == 0 then Some(BMP)
    else if b == 1 then Some(PNG)
    else if b == 2 then Some(JPG)
    else if b == 3 then Some(GIF)
    else if b == 4 then Some(TIF)
    else None
  }

  function Field(u: uint32): seq<byte> {
    BigEndian(u, 4)
  }

  function FieldAt(data: seq<byte>, at: nat): (u: uint32)
    requires at + 4 <= |data|
  {
    FromBigEndianBound(data[at..at + 4]);
    Widths();
    FromBigEndian(data[at..at + 4])
  }

  function ParamsPayload(p: Params): seq<byte> {
    Field(ToUnsigned(p.frameRate)) + Field(p.resolution.width) + Field(p.resolution.height)
  }

  function H264Payload(width: int32, height: int32, image: seq<byte>): seq<byte> {
    Field(ToUnsigned(width)) + Field(ToUnsigned(height)) + image
  }

  /** The payload each kind of message has on the wire, under its tag. */
  function ToTlv(m: Message): TlvMessage {
    match m
    case HelloMsg(username) => TlvMessage(Tag.Hello, username)
    case OkMsg => TlvMessage(Tag.Ok, [])
    case GetStreamParamsMsg => TlvMessage(Tag.GetStreamParams, [])
    case StreamParamsMsg(p) => TlvMessage(Tag.StreamParams, ParamsPayload(p))
    case InitializeStreamMsg(p) => TlvMessage(Tag.InitializeStream, ParamsPayload(p))
    case H264PacketMsg(w, h, image) => TlvMessage(Tag.H264Packet, H264Payload(w, h, image))
    case StreamFrameMsg(format, image) => TlvMessage(Tag.StreamFrame, [EncodingByte(format)] + image)
    case EndStreamMsg => TlvMessage(Tag.EndStream, [])
  }

  function StreamParamsFrom(t: TlvMessage): Option<Params> {
    if t.tag != Tag.StreamParams || |t.data| < 12 then None
    else Some(Params(ToSigned(FieldAt(t.data, 0)), ScreenResolution(FieldAt(t.data, 4), FieldAt(t.data, 8))))
  }

  /** The payload is that of StreamParams, so the message is retagged and handed over. */
  function InitializeStreamFrom(t: TlvMessage): Option<Params> {
    if t.tag != Tag.InitializeStream then None else StreamParamsFrom(t.(tag := Tag.StreamParams))
  }

  function H264PacketFrom(t: TlvMessage): Option<Message> {
    if t.tag != Tag.H264Packet || |t.data| < 8 then None
    else Some(H264PacketMsg(ToSigned(FieldAt(t.data, 0)), ToSigned(FieldAt(t.data, 4)), t.data[8..]))
  }

  function StreamFrameFrom(t: TlvMessage): Option<Message> {
    if t.tag != Tag.StreamFrame || |t.data| < 1 then None
    else match EncodingOf(t.data[0])
      case None => None
      case Some(format) => Some(StreamFrameMsg(format, t.data[1..]))
  }

  /** The one typed reading that a message's tag allows. */
  function Decode(t: TlvMessage): Option<Message> {
    match t.tag
    case Hello => Some(HelloMsg(t.data))
    case Ok => Some(OkMsg)
    case GetStreamParams => Some(GetStreamParamsMsg)
    case StreamParams =>
      (match StreamParamsFrom(t) case Some(p) => Some(StreamParamsMsg(p)) case None => None)
    case InitializeStream =>
      (match InitializeStreamFrom(t) case Some(p) => Some(InitializeStreamMsg(p)) case None => None)
    case H264Packet => H264PacketFrom(t)
    case StreamFrame => StreamFrameFrom(t)
    case EndStream => Some(EndStreamMsg)
  }

  /** Each typed reader finds exactly the messages of its own kind, so on any message at most one finds something. */
  lemma ReadersApart(t: TlvMessage, p: Params, m: Message)
    ensures StreamParamsFrom(t) == Some(p) <==> Decode(t) == Some(StreamParamsMsg(p))
    ensures InitializeStreamFrom(t) == Some(p) <==> Decode(t) == Some(InitializeStreamMsg(p))
    ensures H264PacketFrom(t) == Some(m) <==> Decode(t) == Some(m) && m.H264PacketMsg?
    ensures StreamFrameFrom(t) == Some(m) <==> Decode(t) == Some(m) && m.StreamFrameMsg?
  {
  }

  /** What a message decodes to is of its tag. */
  lemma DecodeKeepsTag(t: TlvMessage)
    ensures Decode(t).Some? ==> ToTlv(Decode(t).value).tag == t.tag
  {
  }

  lemma FieldRoundTrip(before: seq<byte>, u: uint32, after: seq<byte>)
    ensures FieldAt(before + Field(u) + after, |before|) == u
  {
    Widths();
    BigEndianRoundTrip(u, 4);
    assert (before + Field(u) + after)[|before|..|before| + 4] == Field(u);
  }

  lemma FieldOf(data: seq<byte>, at: nat)
    requires at + 4 <= |data|
    ensures Field(FieldAt(data, at)) == data[at..at + 4]
  {
    BigEndianOfFrom(data[at..at + 4]);
  }

  lemma ThreeFields(a: uint32, b: uint32, c: uint32, after: seq<byte>)
    ensures var data := Field(a) + Field(b) + Field(c) + after;
            FieldAt(data, 0) == a && FieldAt(data, 4) == b && FieldAt(data, 8) == c
  {
    var data := Field(a) + Field(b) + Field(c) + after;
    assert data == [] + Field(a) + (Field(b) + Field(c) + after);
    FieldRoundTrip([], a, Field(b) + Field(c) + after);
    assert data == Field(a) + Field(b) + (Field(c) + after);
    FieldRoundTrip(Field(a), b, Field(c) + after);
    FieldRoundTrip(Field(a) + Field(b), c, after);
  }

  lemma TwoFields(a: uint32, b: uint32, after: seq<byte>)
    ensures var data := Field(a) + Field(b) + after;
            FieldAt(data, 0) == a && FieldAt(data, 4) == b && data[8..] == after
  {
    assert Field(a) + Field(b) + after == [] + Field(a) + (Field(b) + after);
    FieldRoundTrip([], a, Field(b) + after);
    FieldRoundTrip(Field(a), b, after);
  }

  /** Where a stream's parameters lie in their payload: frame rate, width and height, four octets each. */
  lemma ParamsLayout(p: Params)
    ensures |ParamsPayload(p)| == 12
    ensures FromBigEndian(ParamsPayload(p)[..4]) == ToUnsigned(p.frameRate)
    ensures FromBigEndian(ParamsPayload(p)[4..8]) == p.resolution.width
    ensures FromBigEndian(ParamsPayload(p)[8..]) == p.resolution.height
  {
    FieldIs(ToUnsigned(p.frameRate));
    FieldIs(p.resolution.width);
    FieldIs(p.resolution.height);
    assert ParamsPayload(p)[..4] == Field(ToUnsigned(p.frameRate));
    assert ParamsPayload(p)[4..8] == Field(p.resolution.width);
    assert ParamsPayload(p)[8..] == Field(p.resolution.height);
  }

  /** Likewise for a packet: width, height and then the image. */
  lemma PacketLayout(width: int32, height: int32, image: seq<byte>)
    ensures var data := H264Payload(width, height, image);
            && |data| == 8 + |image| && data[8..] == image
            && FromBigEndian(data[..4]) == ToUnsigned(width) && FromBigEndian(data[4..8]) == ToUnsigned(height)
  {
    FieldIs(ToUnsigned(width));
    FieldIs(ToUnsigned(height));
    assert H264Payload(width, height, image)[..4] == Field(ToUnsigned(width));
    assert H264Payload(width, height, image)[4..8] == Field(ToUnsigned(height));
  }

  lemma FieldIs(u: uint32)
    ensures |Field(u)| == 4 && FromBigEndian(Field(u)) == u
  {
    Widths();
    BigEndianRoundTrip(u, 4);
  }

  /** The enumeration of image formats, in the order of its declaration. */
  const FORMATS := [BMP, PNG, JPG, GIF, TIF]

  /** A format on the wire is its place in the enumeration, and no other byte is one. */
  lemma FormatsInOrder(b: byte)
    ensures if b < |FORMATS| then EncodingByte(FORMATS[b]) == b && EncodingOf(b) == Some(FORMATS[b])
            else EncodingOf(b) == None
  {
  }

  /** The tag of each kind of message. */
  lemma KindsByTag(m: Message)
    ensures m.HelloMsg? <==> ToTlv(m).tag == Tag.Hello
    ensures m.OkMsg? <==> ToTlv(m).tag == Tag.Ok
    ensures m.GetStreamParamsMsg? <==> ToTlv(m).tag == Tag.GetStreamParams
    ensures m.StreamParamsMsg? <==> ToTlv(m).tag == Tag.StreamParams
    ensures m.InitializeStreamMsg? <==> ToTlv(m).tag == Tag.InitializeStream
    ensures m.H264PacketMsg? <==> ToTlv(m).tag == Tag.H264Packet
    ensures m.StreamFrameMsg? <==> ToTlv(m).tag == Tag.StreamFrame
    ensures m.EndStreamMsg? <==> ToTlv(m).tag == Tag.EndStream
  {
  }

  /** Decoding undoes encoding, for every message of every kind. */
  lemma DecodeOfEncode(m: Message)
    ensures Decode(ToTlv(m)) == Some(m)
  {
    match m
    case StreamParamsMsg(p) => ParamsRoundTrip(p);
    case InitializeStreamMsg(p) => ParamsRoundTrip(p);
    case H264PacketMsg(w, h, image) => H264RoundTrip(w, h, image);
    case StreamFrameMsg(format, image) => StreamFrameRoundTrip(format, image);
    case _ =>
  }

  lemma H264RoundTrip(width: int32, height: int32, image: seq<byte>)
    ensures H264PacketFrom(TlvMessage(Tag.H264Packet, H264Payload(width, height, image)))
            == Some(H264PacketMsg(width, height, image))
  {
    TwoFields(ToUnsigned(width), ToUnsigned(height), image);
  }

  lemma StreamFrameRoundTrip(format: Encoding, image: seq<byte>)
    ensures StreamFrameFrom(TlvMessage(Tag.StreamFrame, [EncodingByte(format)] + image))
            == Some(StreamFrameMsg(format, image))
  {
    var data := [EncodingByte(format)] + image;
    assert data[1..] == image;
  }

  lemma ParamsRoundTrip(p: Params)
    ensures StreamParamsFrom(TlvMessage(Tag.StreamParams, ParamsPayload(p))) == Some(p)
  {
    ThreeFields(ToUnsigned(p.frameRate), p.resolution.width, p.resolution.height, []);
    assert ParamsPayload(p) == ParamsPayload(p) + [];
  }

  /** A message that decodes re-encodes to itself, except that what follows a payload of fixed size is lost. */
  lemma EncodeOfDecode(t: TlvMessage)
    requires Decode(t).Some?
    ensures ToTlv(Decode(t).value) == t <==>
              match t.tag {
                case StreamParams => |t.data| == 12
                case InitializeStream => |t.data| == 12
                case Ok => t.data == []
                case GetStreamParams => t.data == []
                case EndStream => t.data == []
                case _ => true
              }
  {
    match t.tag
    case StreamParams => ParamsOfDecode(t);
    case InitializeStream => ParamsOfDecode(t.(tag := Tag.StreamParams));
    case H264Packet =>
      FieldOf(t.data, 0);
      FieldOf(t.data, 4);
      assert t.data == t.data[0..4] + t.data[4..8] + t.data[8..];
    case StreamFrame => assert t.data == [t.data[0]] + t.data[1..];
    case _ =>
  }

  lemma ParamsOfDecode(t: TlvMessage)
    requires t.tag == Tag.StreamParams && |t.data| >= 12
    ensures ParamsPayload(StreamParamsFrom(t).value) == t.data[..12]
  {
    FieldOf(t.data, 0);
    FieldOf(t.data, 4);
    FieldOf(t.data, 8);
    assert t.data[..12] == t.data[0..4] + t.data[4..8] + t.data[8..12];
  }

  /** Which messages decode, from tag and payload alone. */
  lemma DecodesIff(t: TlvMessage)
    ensures Decode(t).Some? <==>
              match t.tag {
                case StreamParams => |t.data| >= 12
                case InitializeStream => |t.data| >= 12
                case H264Packet => |t.data| >= 8
                case StreamFrame => |t.data| >= 1 && t.data[0] < 5
                case _ => true
              }
  {
  }

  function EncodeAll(ms: seq<Message>): (ts: seq<TlvMessage>)
    ensures |ts| == |ms| && forall i :: 0 <= i < |ms| ==> ts[i] == ToTlv(ms[i])
  {
    if ms == [] then [] else [ToTlv(ms[0])] + EncodeAll(ms[1..])
  }

  function DecodeAll(ts: seq<TlvMessage>): seq<Option<Message>> {
    if ts == [] then [] else [Decode(ts[0])] + DecodeAll(ts[1..])
  }

  lemma {:induction false} DecodeAllOfEncodeAll(ms: seq<Message>)
    ensures |DecodeAll(EncodeAll(ms))| == |ms|
    ensures forall i :: 0 <= i < |ms| ==> DecodeAll(EncodeAll(ms))[i] == Some(ms[i])
  {
    if ms != [] {
      DecodeOfEncode(ms[0]);
      DecodeAllOfEncodeAll(ms[1..]);
      assert EncodeAll(ms)[1..] == EncodeAll(ms[1..]);
    }
  }

  /** A byte stream carrying typed messages is a FIFO queue of those messages: the channels of the session protocol. */
  lemma TypedStreamRoundTrip(ms: seq<Message>)
    requires forall i :: 0 <= i < |ms| ==> Representable(ToTlv(ms[i]))
    ensures var bytes := WireAll(EncodeAll(ms));
            Leftover(bytes) == [] && |DecodeAll(Tlv.Messages(bytes))| == |ms|
            && forall i :: 0 <= i < |ms| ==> DecodeAll(Tlv.Messages(bytes))[i] == Some(ms[i])
  {
    StreamRoundTrip(EncodeAll(ms));
    DecodeAllOfEncodeAll(ms);
  }

  lemma HostToNetwork(u: uint32)
    ensures Image(SwapBytes(u, 4), 4) == Field(u)
  {
    StoredInNetworkOrder(u, 4);
  }

  lemma NetworkToHost(data: seq<byte>, at: nat)
    requires at + 4 <= |data|
    ensures SwapBytes(Load(data[at..at + 4]), 4) == FieldAt(data, at)
  {
    LoadedFromNetworkOrder(data[at..at + 4]);
  }

  /** StreamParams::ToTLVMessage: three memcpys through an advancing pointer. */
  method StreamParamsToTlv(p: Params) returns (t: TlvMessage)
    ensures t == ToTlv(StreamParamsMsg(p))
  {
    var value := new byte[12](_ => 0);
    var dataPtr := 0;
    HostToNetwork(ToUnsigned(p.frameRate));
    Framing.Memcpy(value, dataPtr, Image(SwapBytes(ToUnsigned(p.frameRate), 4), 4));
    assert value[..4] == Field(ToUnsigned(p.frameRate));
    dataPtr := dataPtr + 4;
    HostToNetwork(p.resolution.width);
    Framing.Memcpy(value, dataPtr, Image(SwapBytes(p.resolution.width, 4), 4));
    assert value[..8] == Field(ToUnsigned(p.frameRate)) + Field(p.resolution.width);
    dataPtr := dataPtr + 4;
    HostToNetwork(p.resolution.height);
    Framing.Memcpy(value, dataPtr, Image(SwapBytes(p.resolution.height, 4), 4));
    t := TlvMessage(Tag.StreamParams, value[..]);
    assert value[..] == ParamsPayload(p);
  }

  /** StreamParams::FromTLVMessage */
  method StreamParamsFromTlv(t: TlvMessage) returns (p: Option<Params>)
    ensures p == StreamParamsFrom(t)
  {
    if t.tag != Tag.StreamParams {
      return None;
    }
    if |t.data| < 12 {
      return None;
    }
    var dataPtr := 0;
    NetworkToHost(t.data, 0);
    var fps := SwapBytes(Load(t.data[dataPtr..dataPtr + 4]), 4);
    dataPtr := dataPtr + 4;
    NetworkToHost(t.data, 4);
    var width := SwapBytes(Load(t.data[dataPtr..dataPtr + 4]), 4);
    dataPtr := dataPtr + 4;
    NetworkToHost(t.data, 8);
    var height := SwapBytes(Load(t.data[dataPtr..dataPtr + 4]), 4);
    return Some(Params(ToSigned(fps), ScreenResolution(width, height)));
  }

  /** H264Packet::ToTLVMessage: the value grows by what is copied through a back inserter. */
  method H264PacketToTlv(width: int32, height: int32, image: seq<byte>) returns (t: TlvMessage)
    ensures t == ToTlv(H264PacketMsg(width, height, image))
  {
    var networkValue: seq<byte> := [];
    HostToNetwork(ToUnsigned(width));
    networkValue := networkValue + Image(SwapBytes(ToUnsigned(width), 4), 4);
    HostToNetwork(ToUnsigned(height));
    networkValue := networkValue + Image(SwapBytes(ToUnsigned(height), 4), 4);
    networkValue := networkValue + image;
    return TlvMessage(Tag.H264Packet, networkValue);
  }

  /** H264Packet::FromTLVMessage */
  method H264PacketFromTlv(t: TlvMessage) returns (p: Option<Message>)
    ensures p == H264PacketFrom(t)
  {
    if t.tag != Tag.H264Packet {
      return None;
    }
    if |t.data| < 8 {
      return None;
    }
    NetworkToHost(t.data, 0);
    NetworkToHost(t.data, 4);
    var frameWidth := SwapBytes(Load(t.data[0..4]), 4);
    var frameHeight := SwapBytes(Load(t.data[4..8]), 4);
    var data: seq<byte> := t.data[8..];
    return Some(H264PacketMsg(ToSigned(frameWidth), ToSigned(frameHeight), data));
  }

  /** StreamFrame::ToTLVMessage */
  method StreamFrameToTlv(format: Encoding, image: seq<byte>) returns (t: TlvMessage)
    ensures t == ToTlv(StreamFrameMsg(format, image))
  {
    var payload := new byte[|image| + 1];
    Framing.Memcpy(payload, 0, [EncodingByte(format)]);
    Framing.Memcpy(payload, 1, image);
    assert payload[..] == [EncodingByte(format)] + image;
    return TlvMessage(Tag.StreamFrame, payload[..]);
  }
}
