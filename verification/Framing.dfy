/** Wire frames (src/framing.rs): a 37-byte header followed by the payload. */
module Framing {
  import opened ByteStrings

  const MAGIC: Bytes := [0x4A, 0x47]
  const VERSION: byte := 1
  const MAX_PAYLOAD: nat := 65536
  const HEADER_LEN: nat := 37

  type SessionId = s: Bytes | |s| == 16 witness [0, 0, 0, 0, 0, 0, 0, 0, 0, 0, 0, 0, 0, 0, 0, 0]

  const ZERO_ID: SessionId := [0, 0, 0, 0, 0, 0, 0, 0, 0, 0, 0, 0, 0, 0, 0, 0]

  datatype MessageType = Hello | KemOffer | KemResponse | Auth | Ready | Message | Ack | Error | Control

  datatype Frame = Frame(msgType: MessageType, flags: byte, sessionId: SessionId, seqNo: u32, msgId: u64, payload: Bytes)
  {
    predicate IsSessionFrame() {
      msgType.Message? || msgType.Ack? || msgType.Control?
    }
  }

  datatype FrameError =
    | BadMagic
    | UnsupportedVersion(version: byte)
    | UnknownType(code: byte)
    | ReservedFlags(flags: byte)
    | PayloadTooLarge(size: nat)
    | Truncated
    | SessionFieldsOnHandshakeFrame
    | HandshakeFieldsOnSessionFrame

  datatype Decoded = Decoded(frame: Frame) | Malformed(error: FrameError)

  function HandshakeFrame(t: MessageType, payload: Bytes): Frame {
    Frame(t, 0, ZERO_ID, 0, 0, payload)
  }

  function TypeCode(t: MessageType): (code: byte)
    ensures FromCode(code) == Some(t)
  {
    match t
    case Hello => 1
    case KemOffer => 2
    case KemResponse => 3
    case Auth => 4
    case Ready => 5
    case Message => 6
    case Ack => 7
    case Error => 8
    case Control => 9
  }

  function FromCode(code: byte): (t: Option<MessageType>)
  {
    match code
    case 1 => Some(Hello)
    case 2 => Some(KemOffer)
    case 3 => Some(KemResponse)
    case 4 => Some(Auth)
    case 5 => Some(Ready)
    case 6 => Some(Message)
    case 7 => Some(Ack)
    case 8 => Some(Error)
    case 9 => Some(Control)
    case _ => None
  }

  lemma CodeOfType(code: byte)
    requires FromCode(code).Some?
    ensures TypeCode(FromCode(code).value) == code
  {
  }

  function Header(f: Frame): (h: Bytes)
    ensures |h| == HEADER_LEN
  {
    MAGIC + [VERSION, TypeCode(f.msgType), f.flags] + f.sessionId
    + BigEndian(f.seqNo, 4) + BigEndian(f.msgId, 8) + BigEndian(|f.payload|, 4)
  }

  /** The wire form of a frame. */
  function Encoding(f: Frame): (s: Bytes)
    ensures |s| == HEADER_LEN + |f.payload|
  {
    Header(f) + f.payload
  }

  /** Appends the fields one by one, as the encoder does. */
  method Encode(f: Frame) returns (out: Bytes)
    ensures out == Encoding(f)
  {
    out := [];
    out := out + MAGIC;
    out := out + [VERSION];
    out := out + [TypeCode(f.msgType)];
    out := out + [f.flags];
    out := out + f.sessionId;
    out := out + BigEndian(f.seqNo, 4);
    out := out + BigEndian(f.msgId, 8);
    out := out + BigEndian(|f.payload|, 4);
    out := out + f.payload;
  }

  /** Session fields are present exactly on session frames. */
  predicate FieldsMatchType(f: Frame) {
    if f.IsSessionFrame() then f.sessionId != ZERO_ID
    else f.sessionId == ZERO_ID && f.seqNo == 0 && f.msgId == 0
  }

  predicate WellFormed(f: Frame) {
    f.flags == 0 && |f.payload| <= MAX_PAYLOAD && FieldsMatchType(f)
  }

  /** Decodes the frame at the front of `buf`; bytes after it are not looked at. */
  function Decode(buf: Bytes): Decoded {
    if |buf| < HEADER_LEN then Malformed(Truncated)
    else if buf[0] != MAGIC[0] || buf[1] != MAGIC[1] then Malformed(BadMagic)
    else if buf[2] != VERSION then Malformed(UnsupportedVersion(buf[2]))
    else
      match FromCode(buf[3])
      case None => Malformed(UnknownType(buf[3]))
      case Some(msgType) =>
        if buf[4] != 0 then Malformed(ReservedFlags(buf[4]))
        else DecodeFields(msgType, buf)
  }

  function FrameAt(msgType: MessageType, buf: Bytes, payloadLen: nat): Frame
    requires HEADER_LEN + payloadLen <= |buf|
  {
    Widths();
    Frame(msgType, 0, buf[5..21], FromBigEndian(buf[21..25]), FromBigEndian(buf[25..33]),
          buf[HEADER_LEN..HEADER_LEN + payloadLen])
  }

  function DecodeFields(msgType: MessageType, buf: Bytes): Decoded
    requires |buf| >= HEADER_LEN
  {
    var payloadLen := FromBigEndian(buf[33..37]);
    if payloadLen > MAX_PAYLOAD then Malformed(PayloadTooLarge(payloadLen))
    else if |buf| < HEADER_LEN + payloadLen then Malformed(Truncated)
    else
      var f := FrameAt(msgType, buf, payloadLen);
      if f.IsSessionFrame() then
        if f.sessionId == ZERO_ID then Malformed(HandshakeFieldsOnSessionFrame) else Decoded(f)
      else if f.sessionId != ZERO_ID || f.seqNo != 0 || f.msgId != 0 then
        Malformed(SessionFieldsOnHandshakeFrame)
      else Decoded(f)
  }

  /** The header fields of an encoding, read back at their offsets. */
  lemma HeaderFields(f: Frame, buf: Bytes)
    requires HEADER_LEN <= |buf| && buf[..HEADER_LEN] == Header(f)
    ensures buf[0] == MAGIC[0] && buf[1] == MAGIC[1] && buf[2] == VERSION
    ensures buf[3] == TypeCode(f.msgType) && buf[4] == f.flags
    ensures buf[5..21] == f.sessionId
    ensures buf[21..25] == BigEndian(f.seqNo, 4)
    ensures buf[25..33] == BigEndian(f.msgId, 8)
    ensures buf[33..37] == BigEndian(|f.payload|, 4)
  {
    var h := buf[..HEADER_LEN];
    assert forall i | 0 <= i < HEADER_LEN :: buf[i] == h[i];
    assert h[0] == MAGIC[0] && h[1] == MAGIC[1] && h[2] == VERSION;
    assert h[5..21] == f.sessionId;
    assert h[21..25] == BigEndian(f.seqNo, 4);
    assert h[25..33] == BigEndian(f.msgId, 8);
    assert h[33..37] == BigEndian(|f.payload|, 4);
    assert buf[5..21] == h[5..21] && buf[21..25] == h[21..25];
    assert buf[25..33] == h[25..33] && buf[33..37] == h[33..37];
  }

  /** A frame survives the wire exactly when it is well formed, whatever follows it. */
  lemma DecodeEncoding(f: Frame, rest: Bytes)
    requires |f.payload| < 0x1_0000_0000
    ensures Decode(Encoding(f) + rest) == Decoded(f) <==> WellFormed(f)
    ensures !WellFormed(f) ==> Decode(Encoding(f) + rest).Malformed?
  {
    EncodingReason(f, rest);
  }

  /** Why an encoded frame is refused. */
  lemma EncodingReason(f: Frame, rest: Bytes)
    requires |f.payload| < 0x1_0000_0000
    ensures Decode(Encoding(f) + rest) ==
            if f.flags != 0 then Malformed(ReservedFlags(f.flags))
            else if |f.payload| > MAX_PAYLOAD then Malformed(PayloadTooLarge(|f.payload|))
            else if FieldsMatchType(f) then Decoded(f)
            else Malformed(if f.IsSessionFrame() then HandshakeFieldsOnSessionFrame else SessionFieldsOnHandshakeFrame)
  {
    var buf := Encoding(f) + rest;
    assert buf[..HEADER_LEN] == Header(f);
    HeaderFields(f, buf);
    Widths();
    BigEndianRoundTrip(f.seqNo, 4);
    BigEndianRoundTrip(f.msgId, 8);
    BigEndianRoundTrip(|f.payload|, 4);
    assert buf[HEADER_LEN..HEADER_LEN + |f.payload|] == f.payload;
  }

  /** Bytes that no encoder produces: the first byte that is wrong is reported. */
  lemma HeaderReason(buf: Bytes)
    requires |buf| >= HEADER_LEN
    ensures Decode(buf) == Malformed(BadMagic) <==> buf[..2] != MAGIC
    ensures Decode(buf) == Malformed(UnsupportedVersion(buf[2])) <==> buf[..2] == MAGIC && buf[2] != 1
    ensures Decode(buf) == Malformed(UnknownType(buf[3])) <==> buf[..2] == MAGIC && buf[2] == 1 && !(1 <= buf[3] <= 9)
  {
    assert buf[..2] == [buf[0], buf[1]];
  }

  /** Decoding is canonical: the consumed bytes are the encoding of the result. */
  lemma DecodeCanonical(buf: Bytes)
    requires Decode(buf).Decoded?
    ensures var f := Decode(buf).frame;
            WellFormed(f) && |Encoding(f)| <= |buf| && buf[..|Encoding(f)|] == Encoding(f)
  {
    var f := Decode(buf).frame;
    var n := HEADER_LEN + |f.payload|;
    CodeOfType(buf[3]);
    BigEndianOfBytes(buf[21..25]);
    BigEndianOfBytes(buf[25..33]);
    BigEndianOfBytes(buf[33..37]);
    assert |f.payload| == FromBigEndian(buf[33..37]);
    assert buf[..n] == buf[..5] + buf[5..21] + buf[21..25] + buf[25..33] + buf[33..37] + buf[37..n];
    assert buf[..5] == MAGIC + [VERSION, TypeCode(f.msgType), f.flags];
  }

  /** Anything but Truncated is final: more bytes do not change the answer. */
  lemma DecodeMonotone(buf: Bytes, more: Bytes)
    requires Decode(buf) != Malformed(Truncated)
    ensures Decode(buf + more) == Decode(buf)
  {
    var big := buf + more;
    assert forall i | 0 <= i < |buf| :: big[i] == buf[i];
    assert big[33..37] == buf[33..37];
    assert big[5..21] == buf[5..21] && big[21..25] == buf[21..25] && big[25..33] == buf[25..33];
    var n := FromBigEndian(buf[33..37]);
    if HEADER_LEN + n <= |buf| {
      assert big[HEADER_LEN..HEADER_LEN + n] == buf[HEADER_LEN..HEADER_LEN + n];
    }
  }

  /** Every proper prefix of a well-formed encoding asks for more bytes. */
  lemma ProperPrefixTruncated(f: Frame, n: nat)
    requires WellFormed(f) && n < |Encoding(f)|
    ensures Decode(Encoding(f)[..n]) == Malformed(Truncated)
  {
    var buf := Encoding(f)[..n];
    if Decode(buf) != Malformed(Truncated) {
      DecodeMonotone(buf, Encoding(f)[n..]);
      assert buf + Encoding(f)[n..] == Encoding(f) == Encoding(f) + [];
      DecodeEncoding(f, []);
      DecodeCanonical(buf);
    }
  }

  /** A buffer that still asks for more is shorter than the largest frame. */
  lemma TruncatedIsShort(buf: Bytes)
    requires Decode(buf) == Malformed(Truncated)
    ensures |buf| < HEADER_LEN + MAX_PAYLOAD
  {
  }

  /** The wire form of a list of frames. */
  function EncodingAll(fs: seq<Frame>): (s: Bytes) {
    if fs == [] then [] else Encoding(fs[0]) + EncodingAll(fs[1..])
  }

  lemma {:induction false} EncodingAllAppend(fs: seq<Frame>, gs: seq<Frame>)
    ensures EncodingAll(fs + gs) == EncodingAll(fs) + EncodingAll(gs)
  {
    if fs == [] {
      assert fs + gs == gs;
    } else {
      EncodingAllAppend(fs[1..], gs);
      assert (fs + gs)[0] == fs[0] && (fs + gs)[1..] == fs[1..] + gs;
      ConcatAssociative(Encoding(fs[0]), EncodingAll(fs[1..]), EncodingAll(gs));
    }
  }
}
